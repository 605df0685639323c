/**
  * Which messages copyinmsg accepts, by the bytes of the message (ipc/copy_user.c): the exact condition for an
  * item and for a message, and that every message put together from good items is accepted.
  */
module CopyUserLaws {
  import opened Options
  import opened CopyUser
  import opened CopyUserTheorems
  import opened CopyUserWalkers

  // ---------------------------------------------------------------- the bytes of a descriptor

  /** Bit 29 of the descriptor's word: the long layout. */
  predicate Long(u: seq<byte>, p: nat)
    requires p + 4 <= |u|
  {
    u[p + 3] / 32 % 2 == 1
  }

  predicate Readable(u: seq<byte>, p: nat) { p + 4 <= |u| && (Long(u, p) ==> p + 12 <= |u|) }

  function NameAt(u: seq<byte>, p: nat): nat
    requires Readable(u, p)
  {
    if Long(u, p) then u[p + 4] else u[p]
  }

  function SizeAt(u: seq<byte>, p: nat): nat
    requires Readable(u, p)
  {
    if Long(u, p) then u[p + 6] as int + 0x100 * u[p + 7] as int else u[p + 1]
  }

  function NumberAt(u: seq<byte>, p: nat): nat
    requires Readable(u, p)
  {
    if Long(u, p) then
      u[p + 8] as int + 0x100 * u[p + 9] as int + 0x1_0000 * u[p + 10] as int + 0x100_0000 * u[p + 11] as int
    else u[p + 2] as int + 0x100 * (u[p + 3] as int % 16)
  }

  predicate InlineAt(u: seq<byte>, p: nat)
    requires Readable(u, p)
  {
    u[p + 3] / 16 % 2 == 1
  }

  /** MACH_MSG_TYPE_MOVE_RECEIVE to MACH_MSG_TYPE_MAKE_SEND_ONCE. */
  predicate PortsAt(u: seq<byte>, p: nat)
    requires Readable(u, p)
  {
    16 <= NameAt(u, p) <= 21
  }

  function DataAt(u: seq<byte>, p: nat): nat
    requires Readable(u, p)
  {
    if Long(u, p) then p + 12 else p + 4
  }

  /** An address, a name for each port, or the bytes themselves. */
  function BytesAt(u: seq<byte>, p: nat): nat
    requires Readable(u, p)
  {
    if !InlineAt(u, p) then 4
    else if PortsAt(u, p) then 4 * NumberAt(u, p)
    else Product(SizeAt(u, p) / 8, NumberAt(u, p))
  }

  function Product(a: nat, b: nat): nat { a * b }

  lemma WordBytes(a: byte, b: byte, c: byte, d: byte)
    ensures var w := a as int + 0x100 * b as int + 0x1_0000 * c as int + 0x100_0000 * d as int;
      && w % 0x100 == a && w / 0x100 % 0x100 == b && w / 0x1_0000 == c as int + 0x100 * d as int && w / 0x100_0000 == d
  {}

  lemma HighBits(d: byte, c: byte, w: nat)
    requires w / 0x1_0000 == c as int + 0x100 * d as int && w / 0x100_0000 == d
    ensures w / 0x1_0000 % 0x1000 == c as int + 0x100 * (d as int % 16)
    ensures w / 0x1000_0000 == d / 16 && w / 0x2000_0000 == d / 32
  {}

  lemma TypeBytes(u: seq<byte>, p: nat)
    requires p + 4 <= |u|
    ensures IsLong(u, p) == Long(u, p)
    ensures Readable(u, p) ==>
      var t := UserType(u, p);
      && t.name == NameAt(u, p) && t.size == SizeAt(u, p) && t.number == NumberAt(u, p) && t.inline == InlineAt(u, p)
      && t.longform == Long(u, p)
  {
    WordBytes(u[p], u[p + 1], u[p + 2], u[p + 3]);
    HighBits(u[p + 3], u[p + 2], Get32(u, p));
    if Readable(u, p) && Long(u, p) {
      LowByte(u[p + 4], u[p + 5]);
    }
  }

  lemma LowByte(a: byte, b: byte)
    ensures (a as int + 0x100 * b as int) % 0x100 == a
  {}

  // ---------------------------------------------------------------- one item

  /**
    * An item is refused exactly if its descriptor cannot be read, or it has ports of a size other than 32 bits,
    * inline or not, or its address, its names or its bytes pass the end of the message or of the user's memory.
    */
  ghost predicate Refused(u: seq<byte>, p: nat, end: nat) {
    || !Readable(u, p)
    || (PortsAt(u, p) && SizeAt(u, p) != 32)
    || DataAt(u, p) + BytesAt(u, p) > end
    || DataAt(u, p) + BytesAt(u, p) > |u|
  }

  lemma ItemRefused(u: seq<byte>, p: nat, end: nat)
    ensures Refused(u, p, end) <==> !ItemAccepted(u, p, end)
  {
    if p + 4 <= |u| {
      TypeBytes(u, p);
    }
  }

  // ---------------------------------------------------------------- a chain of items

  /** The first multiple of four that is not below `n`. */
  predicate Rounded(n: nat, q: nat) { q % 4 == 0 && n <= q < n + 4 }

  /** The places of the items from `ps[0]` on: each is good and the next is behind it; at the last no word is left. */
  ghost predicate Chain(u: seq<byte>, ps: seq<nat>, end: nat) {
    && |ps| > 0 && ps[|ps| - 1] + 4 > end
    && forall i {:trigger ps[i]} | 0 <= i < |ps| - 1 ::
         ps[i] + 4 <= end && !Refused(u, ps[i], end) && Rounded(DataAt(u, ps[i]) + BytesAt(u, ps[i]), ps[i + 1])
  }

  lemma AlignRounds(n: nat)
    ensures Rounded(n, UserAlign(n)) && forall q | Rounded(n, q) :: q == UserAlign(n)
  {}

  lemma NextPlace(u: seq<byte>, p: nat, q: nat)
    requires Readable(u, p)
    ensures Rounded(DataAt(u, p) + BytesAt(u, p), q) <==> q == UserNext(UserType(u, p), p)
  {
    TypeBytes(u, p);
    AlignRounds(DataAt(u, p) + BytesAt(u, p));
  }

  lemma {:induction false} AcceptedChain(u: seq<byte>, p: nat, end: nat) returns (ps: seq<nat>)
    requires Accepted(u, p, end)
    ensures Chain(u, ps, end) && ps[0] == p
    decreases end - p
  {
    if p + 4 > end {
      ps := [p];
    } else {
      ItemRefused(u, p, end);
      var t := UserType(u, p);
      UserProgress(t, p);
      NextPlace(u, p, UserNext(t, p));
      var rest := AcceptedChain(u, UserNext(t, p), end);
      ps := [p] + rest;
      ChainMore(u, p, rest, end);
    }
  }

  lemma ChainMore(u: seq<byte>, p: nat, rest: seq<nat>, end: nat)
    requires Chain(u, rest, end) && p + 4 <= end && !Refused(u, p, end)
    requires Rounded(DataAt(u, p) + BytesAt(u, p), rest[0])
    ensures Chain(u, [p] + rest, end)
  {
    var ps := [p] + rest;
    forall i | 0 <= i < |ps| - 1
      ensures ps[i] + 4 <= end && !Refused(u, ps[i], end) && Rounded(DataAt(u, ps[i]) + BytesAt(u, ps[i]), ps[i + 1])
    {
      if i > 0 {
        assert ps[i] == rest[i - 1] && ps[i + 1] == rest[i];
      }
    }
  }

  lemma {:induction false} ChainAccepted(u: seq<byte>, ps: seq<nat>, end: nat)
    requires Chain(u, ps, end)
    ensures Accepted(u, ps[0], end)
    decreases |ps|
  {
    var p := ps[0];
    if p + 4 <= end {
      assert |ps| > 1;
      ItemRefused(u, p, end);
      NextPlace(u, p, ps[1]);
      UserProgress(UserType(u, p), p);
      ChainLess(u, ps, end);
      ChainAccepted(u, ps[1..], end);
    }
  }

  lemma ChainLess(u: seq<byte>, ps: seq<nat>, end: nat)
    requires Chain(u, ps, end) && |ps| > 1
    ensures Chain(u, ps[1..], end)
  {
    var rest := ps[1..];
    forall i | 0 <= i < |rest| - 1
      ensures rest[i] + 4 <= end && !Refused(u, rest[i], end)
        && Rounded(DataAt(u, rest[i]) + BytesAt(u, rest[i]), rest[i + 1])
    {
      assert rest[i] == ps[i + 1] && rest[i + 1] == ps[i + 2];
    }
  }

  /** The exact condition for a message: a chain of good items leads from the header to its end. */
  ghost predicate Acceptable(u: seq<byte>, usize: nat) {
    24 <= |u| && exists ps :: Chain(u, ps, usize) && ps[0] == 24
  }

  lemma AcceptedExactly(u: seq<byte>, usize: nat)
    ensures Acceptable(u, usize) <==> USER_HEADER <= |u| && Accepted(u, USER_HEADER, usize)
  {
    if Acceptable(u, usize) {
      var ps :| Chain(u, ps, usize) && ps[0] == 24;
      ChainAccepted(u, ps, usize);
    }
    if USER_HEADER <= |u| && Accepted(u, USER_HEADER, usize) {
      var ps := AcceptedChain(u, USER_HEADER, usize);
    }
  }

  /** copyinmsg fails exactly on the messages that are not acceptable. */
  method CopyInDecides(u: seq<byte>, usize: nat, kbuf: array<byte>) returns (failed: bool, ksize: nat)
    requires 24 <= usize && usize % 4 == 0 && 2 * usize <= kbuf.Length
    modifies kbuf
    ensures failed <==> !Acceptable(u, usize)
  {
    AcceptedExactly(u, usize);
    failed, ksize := CopyInMsg(u, usize, kbuf);
  }

  // ---------------------------------------------------------------- messages put together from items

  /** What a program means to send: a descriptor in either layout, and an address, names or bytes. */
  datatype Item =
    Item(name: nat, size: nat, number: nat, inline: bool, longform: bool, deallocate: bool, data: seq<byte>)

  predicate IsPorts(i: Item) { 16 <= i.name <= 21 }

  /** The fields fit their layout, names of ports have 32 bits, and there is as much data as the descriptor says. */
  predicate Proper(i: Item) {
    && i.name < 0x100
    && (if i.longform then i.size < 0x1_0000 && i.number < 0x1_0000_0000 else i.size < 0x100 && i.number < 0x1000)
    && (IsPorts(i) ==> i.size == 32)
    && |i.data| == if !i.inline then 4 else if IsPorts(i) then 4 * i.number else i.size / 8 * i.number
  }

  function Flags(i: Item): byte
  {
    (if i.inline then 16 else 0) + (if i.longform then 32 else 0) + (if i.deallocate then 64 else 0)
  }

  function Descriptor(i: Item): (d: seq<byte>)
    requires Proper(i)
    ensures |d| == if i.longform then 12 else 4
  {
    if i.longform then
      [0, 0, 0, Flags(i), i.name, 0, i.size % 0x100, i.size / 0x100,
       i.number % 0x100, i.number / 0x100 % 0x100, i.number / 0x1_0000 % 0x100, i.number / 0x100_0000]
    else
      [i.name, i.size, i.number % 0x100, i.number / 0x100 + Flags(i)]
  }

  /** The item with its padding to a multiple of four. */
  function Encoded(i: Item): (e: seq<byte>)
    requires Proper(i)
    ensures |e| >= 4 && |e| % 4 == 0 && |Descriptor(i)| + |i.data| <= |e| < |Descriptor(i)| + |i.data| + 4
  {
    var e := Descriptor(i) + i.data;
    PaddedSize(|e|);
    e + seq((4 - |e| % 4) % 4, _ => 0)
  }

  lemma PaddedSize(n: nat)
    ensures (n + (4 - n % 4) % 4) % 4 == 0
  {}

  predicate AllProper(items: seq<Item>) { forall i | 0 <= i < |items| :: Proper(items[i]) }

  function Body(items: seq<Item>): (b: seq<byte>)
    requires AllProper(items)
    ensures |b| % 4 == 0
  {
    if items == [] then [] else
      BodyAligned(|Encoded(items[0])|, |Body(items[1..])|);
      Encoded(items[0]) + Body(items[1..])
  }

  lemma BodyAligned(a: nat, b: nat)
    requires a % 4 == 0 && b % 4 == 0
    ensures (a + b) % 4 == 0
  {}

  lemma ShortFields(i: Item, d: byte)
    requires Proper(i) && !i.longform && d == i.number / 0x100 + Flags(i)
    ensures d / 32 % 2 == 0 && d as int % 16 == i.number / 0x100 && (d / 16 % 2 == 1 <==> i.inline)
  {
    assert i.number / 0x100 < 16;
  }

  lemma LongFields(i: Item)
    requires i.longform
    ensures Flags(i) / 32 % 2 == 1 && (Flags(i) / 16 % 2 == 1 <==> i.inline)
  {}

  lemma NumberBytes(n: nat)
    requires n < 0x1_0000_0000
    ensures n == n % 0x100 + 0x100 * (n / 0x100 % 0x100) + 0x1_0000 * (n / 0x1_0000 % 0x100)
      + 0x100_0000 * (n / 0x100_0000)
    ensures n / 0x100_0000 < 0x100
  {
    assert n / 0x1_0000 == n / 0x100 / 0x100;
    assert n / 0x100_0000 == n / 0x1_0000 / 0x100;
  }

  ghost predicate Written(u: seq<byte>, p: nat, d: seq<byte>) {
    p + |d| <= |u| && forall j | 0 <= j < |d| :: u[p + j] == d[j]
  }

  /** The bytes of a descriptor say what the item says. */
  lemma DescriptorSays(i: Item, u: seq<byte>, p: nat)
    requires Proper(i) && Written(u, p, Descriptor(i))
    ensures Readable(u, p) && Long(u, p) == i.longform && InlineAt(u, p) == i.inline
    ensures NameAt(u, p) == i.name && SizeAt(u, p) == i.size && NumberAt(u, p) == i.number
  {
    var d := Descriptor(i);
    assert u[p + 0] == d[0] && u[p + 1] == d[1] && u[p + 2] == d[2] && u[p + 3] == d[3];
    if i.longform {
      LongFields(i);
      NumberBytes(i.number);
      assert u[p + 4] == d[4] && u[p + 6] == d[6] && u[p + 7] == d[7];
      assert u[p + 8] == d[8] && u[p + 9] == d[9] && u[p + 10] == d[10] && u[p + 11] == d[11];
    } else {
      ShortFields(i, d[3]);
    }
  }

  lemma ItemGood(i: Item, u: seq<byte>, p: nat, end: nat)
    requires Proper(i) && Written(u, p, Descriptor(i)) && p + |Encoded(i)| <= end <= |u| && p % 4 == 0
    ensures !Refused(u, p, end) && Rounded(DataAt(u, p) + BytesAt(u, p), p + |Encoded(i)|)
  {
    DescriptorSays(i, u, p);
    BodyAligned(p, |Encoded(i)|);
  }

  lemma WrittenFirst(i: Item, items: seq<Item>, u: seq<byte>, p: nat)
    requires Proper(i) && AllProper(items) && p <= |u| && u[p..] == Encoded(i) + Body(items)
    ensures Written(u, p, Descriptor(i)) && p + |Encoded(i)| <= |u| && u[p + |Encoded(i)|..] == Body(items)
  {
    var e := Encoded(i);
    forall j | 0 <= j < |Descriptor(i)| ensures u[p + j] == Descriptor(i)[j] {
      assert u[p + j] == u[p..][j] == e[j];
    }
    assert u[p + |e|..] == u[p..][|e|..];
  }

  lemma {:induction false} BodyChain(items: seq<Item>, u: seq<byte>, p: nat) returns (ps: seq<nat>)
    requires AllProper(items) && p <= |u| && p % 4 == 0 && u[p..] == Body(items)
    ensures Chain(u, ps, |u|) && ps[0] == p
    decreases |items|
  {
    if items == [] {
      ps := [p];
    } else {
      var i, e := items[0], Encoded(items[0]);
      WrittenFirst(i, items[1..], u, p);
      ItemGood(i, u, p, |u|);
      BodyAligned(p, |e|);
      assert AllProper(items[1..]);
      var rest := BodyChain(items[1..], u, p + |e|);
      ps := [p] + rest;
      ChainMore(u, p, rest, |u|);
    }
  }

  /** Every message put together from good items, with any header, is accepted. */
  lemma GoodMessage(header: seq<byte>, items: seq<Item>)
    requires |header| == 24 && AllProper(items)
    ensures var u := header + Body(items); |u| % 4 == 0 && Acceptable(u, |u|)
  {
    var u := header + Body(items);
    assert u[24..] == Body(items);
    BodyAligned(24, |Body(items)|);
    var ps := BodyChain(items, u, 24);
  }

  /** copyinmsg copies it in. */
  method CopyInGood(header: seq<byte>, items: seq<Item>, kbuf: array<byte>) returns (failed: bool, ksize: nat)
    requires |header| == 24 && AllProper(items) && 2 * (24 + |Body(items)|) <= kbuf.Length
    modifies kbuf
    ensures !failed
  {
    GoodMessage(header, items);
    var u := header + Body(items);
    failed, ksize := CopyInDecides(u, |u|, kbuf);
  }

  // ---------------------------------------------------------------- what the kernel gets

  /** The kernel's descriptor at `kp` says the same as the user's at `p`; inline names are ports, twice as wide. */
  ghost predicate SaysSame(u: seq<byte>, p: nat, k: seq<byte>, kp: nat)
    requires Readable(u, p)
  {
    && kp + 8 <= |k|
    && k[kp] as int == NameAt(u, p)
    && k[kp + 1] as int + 0x100 * k[kp + 2] as int == SizeAt(u, p) + (if InlineAt(u, p) && PortsAt(u, p) then 32 else 0)
    && (k[kp + 3] / 32 % 2 == 1 <==> InlineAt(u, p)) && (k[kp + 3] / 64 % 2 == 1 <==> Long(u, p))
    && (k[kp + 3] / 128 % 2 == 1 <==> u[p + 3] / 64 % 2 == 1)
    && k[kp + 4] as int + 0x100 * k[kp + 5] as int + 0x1_0000 * k[kp + 6] as int + 0x100_0000 * k[kp + 7] as int
       == NumberAt(u, p)
  }

  /** A name or address has its four bytes and four zeros. */
  ghost predicate WideAt(u: seq<byte>, p: nat, k: seq<byte>, kp: nat) {
    && p + 4 <= |u| && kp + 8 <= |k| && k[kp..kp + 4] == u[p..p + 4]
    && k[kp + 4] == 0 && k[kp + 5] == 0 && k[kp + 6] == 0 && k[kp + 7] == 0
  }

  /** Every name, or the one address, is wide; other data is as it was. */
  ghost predicate DataSame(u: seq<byte>, p: nat, k: seq<byte>, kp: nat)
    requires Readable(u, p)
  {
    var data := DataAt(u, p);
    if InlineAt(u, p) && !PortsAt(u, p) then
      data + BytesAt(u, p) <= |u| && kp + 8 + BytesAt(u, p) <= |k| &&
      k[kp + 8..kp + 8 + BytesAt(u, p)] == u[data..data + BytesAt(u, p)]
    else
      forall i: nat | i < (if InlineAt(u, p) then NumberAt(u, p) else 1) :: WideAt(u, data + 4 * i, k, kp + 8 + 8 * i)
  }

  lemma SameBytes(a: byte, b: byte, c: byte, d: byte, e: byte, f: byte, g: byte, h: byte)
    requires a as int + 0x100 * b as int + 0x1_0000 * c as int + 0x100_0000 * d as int
          == e as int + 0x100 * f as int + 0x1_0000 * g as int + 0x100_0000 * h as int
    ensures a == e && b == f && c == g && d == h
  {}

  lemma ExtendedWide(u: seq<byte>, p: nat, k: seq<byte>, kp: nat)
    requires p + 4 <= |u| && kp + 8 <= |k| && Get32(k, kp) == Get32(u, p) && Get32(k, kp + 4) == 0
    ensures WideAt(u, p, k, kp)
  {
    SameBytes(k[kp], k[kp + 1], k[kp + 2], k[kp + 3], u[p], u[p + 1], u[p + 2], u[p + 3]);
    SameBytes(k[kp + 4], k[kp + 5], k[kp + 6], k[kp + 7], 0, 0, 0, 0);
  }

  lemma KernelBits(a: byte, b: byte, c: byte, d: byte)
    ensures var w := a as int + 0x100 * b as int + 0x1_0000 * c as int + 0x100_0000 * d as int;
      && w % 0x100 == a as int && w / 0x100 % 0x1_0000 == b as int + 0x100 * c as int
      && w / 0x2000_0000 == d as int / 32 && w / 0x4000_0000 == d as int / 64 && w / 0x8000_0000 == d as int / 128
  {}

  lemma UserBits(d: byte, w: nat)
    requires w / 0x100_0000 == d as int
    ensures w / 0x4000_0000 == d as int / 64
  {}

  lemma DeallocateIs(u: seq<byte>, p: nat)
    requires Readable(u, p) && IsLong(u, p) == Long(u, p)
    ensures UserType(u, p).deallocate <==> u[p + 3] / 64 % 2 == 1
  {
    WordBytes(u[p], u[p + 1], u[p + 2], u[p + 3]);
    UserBits(u[p + 3], Get32(u, p));
  }

  lemma DescriptorSame(u: seq<byte>, p: nat, k: seq<byte>, kp: nat)
    requires Readable(u, p) && IsLong(u, p) == Long(u, p) && kp + 8 <= |k|
    requires KernelType(k, kp) == Widened(UserType(u, p))
    ensures SaysSame(u, p, k, kp)
  {
    TypeBytes(u, p);
    DeallocateIs(u, p);
    KernelBits(k[kp], k[kp + 1], k[kp + 2], k[kp + 3]);
  }

  lemma WordsSame(u: seq<byte>, p: nat, k: seq<byte>, kp: nat, n: nat)
    requires p + 4 * n <= |u| && kp + 8 * n <= |k| && Extended(u, p, k, kp, n)
    ensures forall i: nat | i < n :: WideAt(u, p + 4 * i, k, kp + 8 * i)
  {
    forall i: nat | i < n ensures WideAt(u, p + 4 * i, k, kp + 8 * i) {
      ExtendedWide(u, p + 4 * i, k, kp + 8 * i);
    }
  }

  lemma BytesAre(u: seq<byte>, p: nat)
    requires Readable(u, p) && IsLong(u, p) == Long(u, p)
    ensures var t := UserType(u, p);
      && DataAt(u, p) == p + UserTypeSize(t) && BytesAt(u, p) == UserData(t)
      && HasWords(t) == !(InlineAt(u, p) && !PortsAt(u, p)) && WideBytes(u, p) == KernelData(t)
      && Words(t) == if InlineAt(u, p) then NumberAt(u, p) else 1
  {
    TypeBytes(u, p);
  }

  /** The length of the kernel's data. */
  function WideBytes(u: seq<byte>, p: nat): nat
    requires Readable(u, p)
  {
    if !InlineAt(u, p) then 8 else if PortsAt(u, p) then 8 * NumberAt(u, p) else BytesAt(u, p)
  }

  lemma ItemData(u: seq<byte>, p: nat, k: seq<byte>, kp: nat)
    requires Readable(u, p) && IsLong(u, p) == Long(u, p)
    requires DataIn(UserType(u, p), u, p + UserTypeSize(UserType(u, p)), k, kp + 8)
    ensures DataSame(u, p, k, kp)
  {
    BytesAre(u, p);
    var t := UserType(u, p);
    if HasWords(t) {
      WordsSame(u, DataAt(u, p), k, kp + 8, Words(t));
    }
  }

  /** An item in the kernel's message has what the user's says, byte by byte. */
  lemma ItemSame(u: seq<byte>, p: nat, k: seq<byte>, kp: nat)
    requires Readable(u, p) && IsLong(u, p) == Long(u, p) && ItemIn(u, p, k, kp)
    ensures SaysSame(u, p, k, kp) && DataSame(u, p, k, kp)
  {
    DescriptorSame(u, p, k, kp);
    ItemData(u, p, k, kp);
  }

  /** The item at `kp` is the one at `p`; the next ones are behind them, at multiples of eight and of four. */
  ghost predicate Follows(u: seq<byte>, p: nat, p': nat, k: seq<byte>, kp: nat, kp': nat) {
    && Readable(u, p) && SaysSame(u, p, k, kp) && DataSame(u, p, k, kp)
    && Rounded(DataAt(u, p) + BytesAt(u, p), p')
    && kp' % 8 == 0 && kp + 8 + WideBytes(u, p) <= kp' < kp + 8 + WideBytes(u, p) + 8
  }

  /** Item by item, from the first places to the last, which are the ends. */
  ghost predicate Translated(u: seq<byte>, ps: seq<nat>, k: seq<byte>, ks: seq<nat>) {
    |ps| == |ks| && |ps| > 0 && forall i | 0 <= i < |ps| - 1 :: Follows(u, ps[i], ps[i + 1], k, ks[i], ks[i + 1])
  }

  lemma TranslatedMore(u: seq<byte>, p: nat, ps: seq<nat>, k: seq<byte>, kp: nat, ks: seq<nat>)
    requires Translated(u, ps, k, ks) && Follows(u, p, ps[0], k, kp, ks[0])
    ensures Translated(u, [p] + ps, k, [kp] + ks)
  {
    var all, kall := [p] + ps, [kp] + ks;
    forall i | 0 <= i < |all| - 1 ensures Follows(u, all[i], all[i + 1], k, kall[i], kall[i + 1]) {
      if i > 0 {
        assert all[i] == ps[i - 1] && all[i + 1] == ps[i] && kall[i] == ks[i - 1] && kall[i + 1] == ks[i];
      }
    }
  }

  lemma ItemFollows(u: seq<byte>, p: nat, k: seq<byte>, kp: nat)
    requires p + USER_SHORT <= |u| && (IsLong(u, p) ==> p + USER_LONG <= |u|) && ItemIn(u, p, k, kp)
    ensures var t := UserType(u, p); Follows(u, p, UserNext(t, p), k, kp, KernelNext(t, kp))
  {
    TypeBytes(u, p);
    ItemSame(u, p, k, kp);
    BytesAre(u, p);
    AlignRounds(DataAt(u, p) + BytesAt(u, p));
    KernelRounds(kp + 8 + WideBytes(u, p));
  }

  lemma KernelRounds(n: nat)
    ensures KernelAlign(n) % 8 == 0 && n <= KernelAlign(n) < n + 8
  {}

  lemma {:induction false} BodyTranslated(u: seq<byte>, p: nat, end: nat, k: seq<byte>, kp: nat, kend: nat)
    returns (ps: seq<nat>, ks: seq<nat>)
    requires BodyIn(u, p, end, k, kp, kend)
    ensures Translated(u, ps, k, ks) && ps[0] == p && ps[|ps| - 1] == end && ks[0] == kp && ks[|ks| - 1] == kend
    decreases end - p
  {
    if p >= end {
      ps, ks := [p], [kp];
    } else {
      var t := UserType(u, p);
      UserProgress(t, p);
      ItemFollows(u, p, k, kp);
      var qs, ls := BodyTranslated(u, UserNext(t, p), end, k, KernelNext(t, kp), kend);
      TranslatedMore(u, p, qs, k, kp, ls);
      ps, ks := [p] + qs, [kp] + ls;
    }
  }

  /** What copyinmsg leaves in the kernel's buffer, byte by byte: the header, and an item for every item. */
  method CopyInTranslates(u: seq<byte>, usize: nat, kbuf: array<byte>)
    returns (failed: bool, ksize: nat, ghost ps: seq<nat>, ghost ks: seq<nat>)
    requires 24 <= usize && usize % 4 == 0 && 2 * usize <= kbuf.Length
    modifies kbuf
    ensures failed <==> !Acceptable(u, usize)
    ensures !failed ==> 32 <= ksize <= 2 * usize && kbuf[..4] == u[..4] && kbuf[24..32] == u[16..24]
    ensures !failed ==> WideAt(u, 8, kbuf[..], 8) && WideAt(u, 12, kbuf[..], 16)
    ensures !failed ==>
      && Translated(u, ps, kbuf[..], ks) && ps[0] == 24 && ps[|ps| - 1] == usize
      && ks[0] == 32 && ks[|ks| - 1] == ksize
  {
    AcceptedExactly(u, usize);
    failed, ksize := CopyInMsg(u, usize, kbuf);
    if failed {
      ps, ks := [], [];
    } else {
      ps, ks := BodyTranslated(u, 24, usize, kbuf[..], 32, ksize);
      WordsSame(u, 8, kbuf[..], 8, 2);
      assert WideAt(u, 8 + 4 * 0, kbuf[..], 8 + 8 * 0) && WideAt(u, 8 + 4 * 1, kbuf[..], 8 + 8 * 1);
      assert kbuf[..4] == kbuf[..][0..4] && u[..4] == u[0..4] && kbuf[24..32] == kbuf[..][24..32];
    }
  }
}
