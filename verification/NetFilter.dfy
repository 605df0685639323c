/**
  * net_filter of device/net_io.c and its pool of message buffers: one packet is offered to a list
  * of filters, and every delivery after the first needs a buffer of its own.
  */
module NetFilter {
  import opened Options

  const PACKET_HEADER: nat := 4   // sizeof(struct packet_header)
  const HI_PRI: int := 100        // NET_HI_PRI

  /** A filter as this packet meets it: what its program returns, and whether its port is alive. */
  datatype Filter = Filter(id: nat, bpf: bool, result: nat, port: nat, live: bool, priority: int)

  /** How much of the packet the filter gets; 0 if it does not want it. */
  function Length(f: Filter, count: nat): nat {
    if f.result == 0 then 0 else if f.bpf then f.result + PACKET_HEADER else count
  }

  /** A BPF program returns at most the length of the packet without its header. */
  predicate Sensible(f: Filter, count: nat) { f.bpf ==> f.result + PACKET_HEADER <= count }

  predicate Accepts(f: Filter, count: nat) { Length(f, count) > 0 && f.live }

  // ---------------------------------------------------------------- who gets the packet

  /** The filters that get the packet when `spare` buffers are left; the first needs none. */
  function Delivered(fs: seq<Filter>, count: nat, spare: nat, first: bool): seq<Filter> {
    if fs == [] then []
    else if !Accepts(fs[0], count) then Delivered(fs[1..], count, spare, first)
    else if !first && spare == 0 then []
    else if fs[0].priority >= HI_PRI then [fs[0]]
    else [fs[0]] + Delivered(fs[1..], count, if first then spare else spare - 1, false)
  }

  /** The filters found dead: those that want the packet, as far down the list as it gets. */
  function Dead(fs: seq<Filter>, count: nat, spare: nat, first: bool): seq<Filter> {
    if fs == [] then []
    else if !Accepts(fs[0], count) then
      (if Length(fs[0], count) > 0 then [fs[0]] else []) + Dead(fs[1..], count, spare, first)
    else if (!first && spare == 0) || fs[0].priority >= HI_PRI then []
    else Dead(fs[1..], count, if first then spare else spare - 1, false)
  }

  /** How many filters of the list the packet gets to. */
  function Reached(fs: seq<Filter>, count: nat, spare: nat, first: bool): (n: nat)
    ensures n <= |fs|
  {
    if fs == [] then 0
    else if !Accepts(fs[0], count) then 1 + Reached(fs[1..], count, spare, first)
    else if (!first && spare == 0) || fs[0].priority >= HI_PRI then 1
    else 1 + Reached(fs[1..], count, if first then spare else spare - 1, false)
  }

  /** The filters found dead are those that the packet gets to, that want it, and whose port is gone. */
  lemma {:induction false} DeadExactly(fs: seq<Filter>, count: nat, spare: nat, first: bool, f: Filter)
    ensures f in Dead(fs, count, spare, first)
      <==> Length(f, count) > 0 && !f.live && f in fs[..Reached(fs, count, spare, first)]
  {
    if fs != [] {
      var n := Reached(fs, count, spare, first);
      assert fs[..n] == [fs[0]] + fs[1..][..n - 1];
      if !Accepts(fs[0], count) {
        DeadExactly(fs[1..], count, spare, first, f);
      } else if !((!first && spare == 0) || fs[0].priority >= HI_PRI) {
        DeadExactly(fs[1..], count, if first then spare else spare - 1, false, f);
      }
    }
  }

  /** The filters that want the packet and are alive, in the order of the list. */
  function Wanting(fs: seq<Filter>, count: nat): seq<Filter> {
    if fs == [] then [] else (if Accepts(fs[0], count) then [fs[0]] else []) + Wanting(fs[1..], count)
  }

  /** Nothing after the first of high priority. */
  function ThroughHigh(fs: seq<Filter>): seq<Filter> {
    if fs == [] then [] else if fs[0].priority >= HI_PRI then [fs[0]] else [fs[0]] + ThroughHigh(fs[1..])
  }

  /**
    * The packet goes to the filters that want it, in list order, up to the first of high priority,
    * and not further than the buffers reach.
    */
  lemma {:induction false} DeliveredInOrder(fs: seq<Filter>, count: nat, spare: nat, first: bool)
    ensures var all := ThroughHigh(Wanting(fs, count));
      Delivered(fs, count, spare, first) == all[..Min(|all|, spare + if first then 1 else 0)]
  {
    if fs != [] {
      var all, rest := ThroughHigh(Wanting(fs, count)), ThroughHigh(Wanting(fs[1..], count));
      if !Accepts(fs[0], count) {
        DeliveredInOrder(fs[1..], count, spare, first);
        assert Wanting(fs, count) == Wanting(fs[1..], count);
      } else {
        assert Wanting(fs, count)[1..] == Wanting(fs[1..], count);
        if !(!first && spare == 0) && fs[0].priority < HI_PRI {
          DeliveredInOrder(fs[1..], count, if first then spare else spare - 1, false);
          assert all == [fs[0]] + rest;
        }
      }
    }
  }

  // ---------------------------------------------------------------- the pool

  class Buffer {
    var packet: seq<nat>
    var header: seq<nat>
    var count: nat        // net_rcv_msg_packet_count
    var dest: nat         // msgh_remote_port

    constructor (capacity: nat)
      ensures |packet| == capacity && header == []
    {
      packet, header, count, dest := seq(capacity, _ => 0), [], 0, 0;
    }
  }

  lemma DistinctInsert(a: seq<Buffer>, c: seq<Buffer>, b: Buffer)
    requires Distinct(a + c) && b !in a + c
    ensures Distinct(a + [b] + c)
  {
    var s, t := a + c, a + [b] + c;
    forall i, j | 0 <= i < j < |t| ensures t[i] != t[j] {
      var i', j' := if i < |a| then i else i - 1, if j < |a| then j else j - 1;
      assert i != |a| ==> t[i] == s[i'];
      assert j != |a| ==> t[j] == s[j'];
      assert i == |a| ==> t[i] == b && t[j] in s;
      assert j == |a| ==> t[j] == b && t[i] in s;
    }
  }

  class Pool {
    const capacity: nat
    var free: seq<Buffer>   // net_queue_free
    var low: seq<Buffer>    // net_queue_low
    var freeSize: int
    var lowSize: int

    ghost predicate Valid()
      reads this
    {
      freeSize == |free| && lowSize == |low| && Distinct(free + low)
    }

    constructor (capacity: nat)
      ensures Valid() && free == low == [] && this.capacity == capacity
    {
      this.capacity := capacity;
      free, low, freeSize, lowSize := [], [], 0, 0;
    }

    /** net_kmsg_get: a free buffer, else one taken from the packets of low priority. */
    method Get() returns (b: Buffer?)
      requires Valid()
      modifies this
      ensures Valid()
      ensures old(free + low) == [] ==> b == null && free == low == []
      ensures old(free + low) != [] ==> b != null && [b] + (free + low) == old(free + low)
    {
      b := null;
      if free != [] {
        b := free[0];
        free, freeSize := free[1..], freeSize - 1;
      } else if low != [] {
        b := low[0];
        low, lowSize := low[1..], lowSize - 1;
      }
      assert free + low == if old(free + low) == [] then [] else old(free + low)[1..];
    }

    /** net_kmsg_put. */
    method Put(b: Buffer)
      requires Valid() && b !in free + low
      modifies this
      ensures Valid() && free == old(free) + [b] && low == old(low)
    {
      DistinctInsert(free, low, b);
      free, freeSize := free + [b], freeSize + 1;
    }

    /** The two copies that make `b` another message with the packet. */
    method Copy(b: Buffer, kmsg: Buffer, n: nat)
      requires b != kmsg && n <= |kmsg.packet| && n <= |b.packet|
      modifies b
      ensures b.packet == kmsg.packet[..n] + old(b.packet)[n..] && b.header == kmsg.header
    {
      b.packet := kmsg.packet[..n] + b.packet[n..];
      b.header := kmsg.header;
    }

    /**
      * The message for one more filter: the packet's own buffer for the first, else a copy; null if there is no
      * buffer.
      */
    method Deliver(kmsg: Buffer, f: Filter, count: nat, first: bool, ghost all: set<Buffer>) returns (b: Buffer?)
      requires Valid() && kmsg in all && (forall x :: x in free + low ==> x in all && x != kmsg)
      requires Accepts(f, count) && Sensible(f, count) && (forall x :: x in all ==> |x.packet| >= count)
      modifies this, all
      ensures Valid() && forall x :: x in all ==> |x.packet| >= count
      ensures first ==> b == kmsg && free + low == old(free + low)
      ensures !first ==>
        if old(free + low) == [] then b == null && free + low == []
        else b != null && [b] + (free + low) == old(free + low)
      ensures b != null ==> Carries(b, f, count, old(kmsg.packet), old(kmsg.header))
      ensures kmsg.packet == old(kmsg.packet) && kmsg.header == old(kmsg.header)
      ensures forall x :: x in all && x != b ==> unchanged(x)
    {
      var n := Length(f, count);
      if first {
        b := kmsg;
      } else {
        ghost var were := free + low;
        b := Get();
        if b == null {
          return;
        }
        assert b == were[0] && b in were;
        Copy(b, kmsg, n);
      }
      b.count, b.dest := n, f.port;
    }

    /** The packet goes to one more filter. */
    method Turn(kmsg: Buffer, f: Filter, count: nat, sent: seq<Buffer>, ghost d: seq<Filter>, ghost were: seq<Buffer>,
                ghost packet: seq<nat>, ghost header: seq<nat>) returns (sent': seq<Buffer>)
      requires Valid() && Distinct(were) && kmsg !in were && Sized(kmsg, were, count) && kmsg.packet == packet
        && kmsg.header == header
      requires Accepts(f, count) && Sensible(f, count)
        && Shipped(sent, d, count, packet, header, free + low, were, kmsg)
      requires sent == [] || free + low != [] ==> |sent| < |d| && d[|sent|] == f
      modifies this, kmsg, were
      ensures Valid() && Sized(kmsg, were, count) && kmsg.packet == packet && kmsg.header == header
      ensures Shipped(sent', d, count, packet, header, free + low, were, kmsg)
      ensures if sent != [] && old(free + low) == [] then sent' == sent else |sent'| == |sent| + 1
      ensures |free + low| == |old(free + low)| - if sent == [] || sent' == sent then 0 else 1
    {
      ghost var all := {kmsg} + (set x | x in were);
      ghost var pool := free + low;
      assert forall x :: x in pool ==> x in were;
      var b := Deliver(kmsg, f, count, sent == [], all);
      if b == null {
        return sent;
      }
      if sent != [] {
        TakenApart(sent, b, free + low, were, kmsg);
      }
      sent' := sent + [b];
      assert sent != [] ==> sent'[1..] + (free + low) == sent[1..] + ([b] + (free + low));
    }

    /** Where the loop of net_filter is: at place `i` of the list, with these messages made. */
    ghost predicate Underway(kmsg: Buffer, fs: seq<Filter>, i: nat, count: nat, sent: seq<Buffer>, dead: nat,
                             more: bool, j: Job)
      reads this, kmsg, j.were, sent
    {
      && Valid() && Sized(kmsg, j.were, count) && kmsg.packet == j.packet && kmsg.header == j.header
      && Shipped(sent, j.d, count, j.packet, j.header, free + low, j.were, kmsg)
      && if more then Left(fs, i, count, |free + low|, sent == [], j.d, |sent|, j.gone, dead)
         else |sent| == |j.d| && dead == |j.gone|
    }

    /** One turn of the loop. */
    method OfferOne(kmsg: Buffer, fs: seq<Filter>, i: nat, count: nat, sent: seq<Buffer>, ghost dead: nat, ghost j: Job)
      returns (sent': seq<Buffer>, died: bool, more: bool)
      requires i < |fs| && Sensible(fs[i], count) && Distinct(j.were) && kmsg !in j.were
      requires Underway(kmsg, fs, i, count, sent, dead, true, j)
      modifies this, kmsg, j.were
      ensures Underway(kmsg, fs, i + 1, count, sent', if died then dead + 1 else dead, more, j)
      ensures died ==> dead < |j.gone| && j.gone[dead] == fs[i]
      ensures sent' == [] ==> sent == [] && free == old(free) && low == old(low)
    {
      var f := fs[i];
      sent', died, more := sent, false, true;
      if Length(f, count) == 0 {
        LeftSkip(fs, i, count, |free + low|, sent == [], j.d, |sent|, j.gone, dead);
      } else {
        if !f.live {
          LeftSkip(fs, i, count, |free + low|, sent == [], j.d, |sent|, j.gone, dead);
          died := true;
        } else {
          LeftTake(fs, i, count, |free + low|, sent == [], j.d, |sent|, j.gone, dead);
          sent' := Turn(kmsg, f, count, sent, j.d, j.were, j.packet, j.header);
          more := |sent'| > |sent| && f.priority < HI_PRI;
        }
      }
    }

    /** The loop of net_filter over the list. */
    method Offer(kmsg: Buffer, fs: seq<Filter>, count: nat) returns (sent: seq<Buffer>, dead: seq<Filter>)
      requires Valid() && kmsg !in free + low && forall f :: f in fs ==> Sensible(f, count)
      requires Sized(kmsg, free + low, count)
      modifies this, kmsg, free + low
      ensures Valid() && (sent == [] ==> free == old(free) && low == old(low))
      ensures var d := Delivered(fs, count, |old(free + low)|, true);
        |sent| == |d| && Shipped(sent, d, count, old(kmsg.packet), old(kmsg.header), free + low, old(free + low), kmsg)
      ensures dead == Dead(fs, count, |old(free + low)|, true)
    {
      ghost var j := Job(Delivered(fs, count, |free + low|, true), Dead(fs, count, |free + low|, true),
                         free + low, kmsg.packet, kmsg.header);
      sent, dead := [], [];
      assert fs[0..] == fs;
      var i, more := 0, true;
      while more && i < |fs|
        invariant 0 <= i <= |fs| && Underway(kmsg, fs, i, count, sent, |dead|, more, j)
        invariant |dead| <= |j.gone| && dead == j.gone[..|dead|]
        invariant sent == [] ==> free == old(free) && low == old(low)
      {
        var died;
        sent, died, more := OfferOne(kmsg, fs, i, count, sent, |dead|, j);
        if died {
          TakeOneMore(j.gone, |dead|);
          dead := dead + [fs[i]];
        }
        i := i + 1;
      }
    }

    /**
      * net_filter.  The packet's buffer becomes the first message, or goes back to the pool; the
      * messages go to the filters of Delivered in order, and the buffers are neither lost nor used twice.
      */
    method Run(kmsg: Buffer, fs: seq<Filter>, count: nat) returns (sent: seq<Buffer>, dead: seq<Filter>)
      requires Valid() && kmsg !in free + low && forall f :: f in fs ==> Sensible(f, count)
      requires Sized(kmsg, free + low, count)
      modifies this, kmsg, free + low
      ensures Valid() && dead == Dead(fs, count, |old(free + low)|, true)
      ensures |sent| == |Delivered(fs, count, |old(free + low)|, true)|
      ensures sent != [] ==>
        Shipped(sent, Delivered(fs, count, |old(free + low)|, true), count, old(kmsg.packet), old(kmsg.header),
          free + low, old(free + low), kmsg)
      ensures if sent == [] then free == old(free) + [kmsg] && low == old(low)
              else sent[0] == kmsg && kmsg !in free + low
    {
      ghost var were := free + low;
      sent, dead := Offer(kmsg, fs, count);
      if sent == [] {
        Put(kmsg);
      } else {
        assert forall x :: x in free + low ==> x in sent[1..] + (free + low);
      }
    }
  }

  lemma TakeOneMore<T>(s: seq<T>, n: nat)
    requires n < |s|
    ensures s[..n] + [s[n]] == s[..n + 1]
  {}

  /** What a run of net_filter is to do, and what it started with. */
  datatype Job = Job(d: seq<Filter>, gone: seq<Filter>, were: seq<Buffer>, packet: seq<nat>, header: seq<nat>)

  /**
    * From place `i` of the list on, the packet goes to what is left of `d`, and what is left of `gone` is found
    * dead.
    */
  ghost predicate Left(fs: seq<Filter>, i: nat, count: nat, spare: nat, first: bool, d: seq<Filter>, n: nat,
                       gone: seq<Filter>, m: nat) {
    && i <= |fs| && n <= |d| && m <= |gone|
    && Delivered(fs[i..], count, spare, first) == d[n..] && Dead(fs[i..], count, spare, first) == gone[m..]
  }

  lemma LeftSkip(fs: seq<Filter>, i: nat, count: nat, spare: nat, first: bool, d: seq<Filter>, n: nat,
                 gone: seq<Filter>, m: nat)
    requires i < |fs| && Left(fs, i, count, spare, first, d, n, gone, m) && !Accepts(fs[i], count)
    ensures if Length(fs[i], count) > 0 then
              m < |gone| && gone[m] == fs[i] && Left(fs, i + 1, count, spare, first, d, n, gone, m + 1)
            else Left(fs, i + 1, count, spare, first, d, n, gone, m)
  {
    assert fs[i..][1..] == fs[i + 1..];
    if Length(fs[i], count) > 0 {
      assert gone[m] == gone[m..][0];
      assert gone[m + 1..] == gone[m..][1..];
    }
  }

  lemma LeftTake(fs: seq<Filter>, i: nat, count: nat, spare: nat, first: bool, d: seq<Filter>, n: nat,
                 gone: seq<Filter>, m: nat)
    requires i < |fs| && Left(fs, i, count, spare, first, d, n, gone, m) && Accepts(fs[i], count)
    ensures if !first && spare == 0 then n == |d| && m == |gone|
            else n < |d| && d[n] == fs[i] && if fs[i].priority >= HI_PRI then n + 1 == |d| && m == |gone|
            else Left(fs, i + 1, count, if first then spare else spare - 1, false, d, n + 1, gone, m)
  {
    assert fs[i..][1..] == fs[i + 1..];
    if first || spare > 0 {
      assert d[n] == d[n..][0];
      assert d[n + 1..] == d[n..][1..];
    }
  }

  ghost predicate Sized(kmsg: Buffer, pool: seq<Buffer>, count: nat)
    reads kmsg, pool
  {
    count <= |kmsg.packet| && forall x :: x in pool ==> count <= |x.packet|
  }

  lemma TakenApart(sent: seq<Buffer>, b: Buffer, pool: seq<Buffer>, were: seq<Buffer>, kmsg: Buffer)
    requires sent != [] && sent[0] == kmsg && sent[1..] + ([b] + pool) == were && Distinct(were) && kmsg !in were
    ensures b !in sent
  {
    assert were[|sent| - 1] == b;
    forall j | 0 <= j < |sent| ensures sent[j] != b {
      if j > 0 {
        assert were[j - 1] == sent[1..][j - 1] == sent[j];
      }
    }
  }

  /** What a delivered message holds. */
  ghost predicate Carries(b: Buffer, f: Filter, count: nat, packet: seq<nat>, header: seq<nat>)
    reads b
  {
    && b.dest == f.port && b.count == Length(f, count)
    && b.count <= |b.packet| && b.count <= |packet| && b.packet[..b.count] == packet[..b.count] && b.header == header
  }

  /** The messages so far are for the first of `d`; after the packet's own buffer they were taken from the pool. */
  ghost predicate Shipped(sent: seq<Buffer>, d: seq<Filter>, count: nat, packet: seq<nat>, header: seq<nat>,
                          pool: seq<Buffer>, were: seq<Buffer>, kmsg: Buffer)
    reads sent
  {
    && |sent| <= |d| && (forall i :: 0 <= i < |sent| ==> Carries(sent[i], d[i], count, packet, header))
    && if sent == [] then pool == were else sent[0] == kmsg && sent[1..] + pool == were
  }
}
