/** net_filter with the interpreters that decide for the filters of the list (device/net_io.c). */
module NetFilterPrograms {
  import opened Options
  import B = Bpf
  import C = Cspf
  import S = SessionTable
  import opened NetFilter

  /** What is on the list of an interface: a BPF program, sessions that share one, or a filter of 16-bit words. */
  datatype Listed =
    | Packets(id: nat, program: seq<B.Insn>, port: nat, priority: int)
    | Sessions(id: nat, header: S.Header)
    | Words(id: nat, words: seq<C.u16>, port: nat, priority: int)

  /** The packet as the two interpreters see it. */
  datatype View = View(bpf: B.Packet, words: C.Packet)

  /** What the interpreters' local memory happens to hold. */
  datatype Scratch = Scratch(mem: seq<B.u32>, stack: seq<B.u32>)

  /** A filter that net_set_filter let in; BPF programs are tame, and the others keep to their stack. */
  ghost predicate Admitted(l: Listed) {
    match l
    case Packets(_, program, _, _) => B.Runnable(program)
    case Sessions(_, header) => B.Runnable(header.filter) && S.HeaderOk(header)
    case Words(_, words, _, _) => C.Accepted(words) && C.Roomy(words, C.Parsing(1, C.DEPTH), 0)
  }

  ghost predicate Sized(x: Scratch) { |x.mem| == B.MEMWORDS && |x.stack| == C.DEPTH + 1 }

  /** What a filter makes of the packet; `live` are the ports that can be sent to. */
  function Verdict(l: Listed, v: View, x: Scratch, live: set<nat>): Filter
    requires Admitted(l) && Sized(x)
  {
    match l
    case Packets(id, program, port, priority) =>
      (match B.Run(program, B.Start(x.mem), v.bpf)
       case Return(n) => Filter(id, true, n, port, port in live, priority)
       case _ => Filter(id, true, 0, port, port in live, priority))
    case Sessions(id, header) =>
      var end := B.Run(header.filter, B.Start(x.mem), v.bpf);
      (match S.Decide(header, end)
       case Some(c) =>
         var port := header.table[c.bucket][c.place].port;
         Filter(id, true, c.length, port, port in live, header.priority)
       case None => Filter(id, true, 0, 0, false, header.priority))
    case Words(id, words, port, priority) =>
      var accepts := C.Run(words, C.Start(x.stack), v.words) == C.Answer(true);
      Filter(id, false, if accepts then 1 else 0, port, port in live, priority)
  }

  /** The session that the search of a shared program finds, with the length it gets. */
  function Found(header: S.Header, v: View, x: Scratch): Option<S.Choice>
    requires B.Runnable(header.filter) && S.HeaderOk(header) && Sized(x)
  {
    S.Decide(header, B.Run(header.filter, B.Start(x.mem), v.bpf))
  }

  /**
    * A header of sessions that the packet gets to is found dead exactly if the search found a session that is
    * to get some of the packet and whose port is gone; a shared program that ends without a search does nothing.
    */
  lemma HeaderFoundDead(ls: seq<Listed>, v: View, xs: seq<Scratch>, live: set<nat>, count: nat, spare: nat, i: nat)
    requires |xs| == |ls| && forall i :: 0 <= i < |ls| ==> Admitted(ls[i]) && Sized(xs[i])
    requires i < Reached(Verdicts(ls, v, xs, live), count, spare, true) && ls[i].Sessions?
    ensures Verdict(ls[i], v, xs[i], live) in Dead(Verdicts(ls, v, xs, live), count, spare, true) <==>
      match Found(ls[i].header, v, xs[i])
      case Some(c) => c.length > 0 && ls[i].header.table[c.bucket][c.place].port !in live
      case None => false
  {
    DeadExactly(Verdicts(ls, v, xs, live), count, spare, true, Verdict(ls[i], v, xs[i], live));
  }

  /** A shared program gives what it returns, and the header of a packet, to a session with the keys it found. */
  ghost predicate Searched(header: S.Header, end: B.End, f: Filter, bytes: nat) {
    if end.Search? && S.HasKeys(header, end.keys) && end.length > 0 then
      && bytes == end.length + 4
      && exists i, j | 0 <= i < |header.table| && 0 <= j < |header.table[i]| ::
           header.table[i][j].keys == end.keys && header.table[i][j].port == f.port
    else bytes == 0
  }

  /**
    * How many bytes a filter gets, by the answer of its interpreter: what a BPF program returns and the header of
    * the packet, or nothing if it returns 0 or rejects; a filter of words all or nothing.
    */
  lemma BytesGiven(l: Listed, v: View, x: Scratch, live: set<nat>, count: nat)
    requires Admitted(l) && Sized(x)
    ensures var f := Verdict(l, v, x, live);
      match l
      case Packets(_, program, port, _) =>
        var end := B.Run(program, B.Start(x.mem), v.bpf);
        && f.port == port && f.priority == l.priority && (f.live <==> port in live)
        && Length(f, count) == if end.Return? && end.length > 0 then end.length + 4 else 0
      case Sessions(_, header) =>
        && Searched(header, B.Run(header.filter, B.Start(x.mem), v.bpf), f, Length(f, count))
        && f.priority == header.priority && (Length(f, count) > 0 ==> (f.live <==> f.port in live))
      case Words(_, words, port, _) =>
        && f.port == port && f.priority == l.priority && (f.live <==> port in live)
        && Length(f, count) == if C.Run(words, C.Start(x.stack), v.words) == C.Answer(true) then count else 0
  {
    match l
    case Packets(_, _, _, _) =>
    case Sessions(_, header) =>
      var end := B.Run(header.filter, B.Start(x.mem), v.bpf);
      if end.Search? {
        S.MatchSearchesAll(header, end.keys);
        if S.Match(header, end.keys).Some? {
          assert header.table[S.Hash(end.keys)][S.Match(header, end.keys).value].keys == end.keys;
        }
      }
    case Words(_, _, _, _) =>
  }

  /** No filter asks for more than the packet has: the interpreters never return more than they were given. */
  lemma VerdictSensible(l: Listed, v: View, x: Scratch, live: set<nat>, count: nat)
    requires Admitted(l) && Sized(x) && v.bpf.wirelen + PACKET_HEADER == count
    ensures Sensible(Verdict(l, v, x, live), count)
  {
    match l
    case Packets(_, program, _, _) => B.StepsBounded(program, B.Start(x.mem), v.bpf);
    case Sessions(_, header) => B.StepsBounded(header.filter, B.Start(x.mem), v.bpf);
    case Words(_, _, _, _) =>
  }

  function Verdicts(ls: seq<Listed>, v: View, xs: seq<Scratch>, live: set<nat>): (fs: seq<Filter>)
    requires |xs| == |ls| && forall i :: 0 <= i < |ls| ==> Admitted(ls[i]) && Sized(xs[i])
    ensures |fs| == |ls| && forall i :: 0 <= i < |ls| ==> fs[i] == Verdict(ls[i], v, xs[i], live)
  {
    seq(|ls|, i requires 0 <= i < |ls| => Verdict(ls[i], v, xs[i], live))
  }

  /** bpf_do_filter or net_do_filter for one filter. */
  method Judge(l: Listed, v: View, x: Scratch, live: set<nat>) returns (f: Filter)
    requires Admitted(l) && Sized(x)
    ensures f == Verdict(l, v, x, live)
  {
    match l {
      case Packets(id, program, port, priority) =>
        var end, _ := B.DoFilter(program, v.bpf, x.mem);
        f := Filter(id, true, if end.Return? then end.length else 0, port, port in live, priority);
      case Sessions(id, header) =>
        var end, _ := B.DoFilter(header.filter, v.bpf, x.mem);
        f := Filter(id, true, 0, 0, false, header.priority);
        if end.Search? {
          forall e | e in header.table[S.Hash(end.keys)] ensures |e.keys| == header.keyCount {
            assert S.EntryOk(header, S.Hash(end.keys), e);
          }
          var found := S.FindMatch(header, end.keys);
          if found.Some? {
            var port := header.table[S.Hash(end.keys)][found.value].port;
            f := Filter(id, true, end.length, port, port in live, header.priority);
          }
        }
      case Words(id, words, port, priority) =>
        var end := C.DoFilter(words, v.words, x.stack);
        f := Filter(id, false, if end == C.Answer(true) then 1 else 0, port, port in live, priority);
    }
  }

  method JudgeAll(ls: seq<Listed>, v: View, xs: seq<Scratch>, live: set<nat>) returns (fs: seq<Filter>)
    requires |xs| == |ls| && forall i :: 0 <= i < |ls| ==> Admitted(ls[i]) && Sized(xs[i])
    ensures fs == Verdicts(ls, v, xs, live)
  {
    fs := [];
    for i := 0 to |ls|
      invariant |fs| == i && forall j :: 0 <= j < i ==> fs[j] == Verdict(ls[j], v, xs[j], live)
    {
      var f := Judge(ls[i], v, xs[i], live);
      fs := fs + [f];
    }
  }

  /** net_filter: the packet goes where the programs on the list say. */
  method FilterPacket(pool: Pool, kmsg: Buffer, ls: seq<Listed>, v: View, xs: seq<Scratch>, live: set<nat>, count: nat)
    returns (sent: seq<Buffer>, dead: seq<Filter>)
    requires |xs| == |ls| && forall i :: 0 <= i < |ls| ==> Admitted(ls[i]) && Sized(xs[i])
    requires v.bpf.wirelen + PACKET_HEADER == count
    requires pool.Valid() && kmsg !in pool.free + pool.low && NetFilter.Sized(kmsg, pool.free + pool.low, count)
    modifies pool, kmsg, pool.free + pool.low
    ensures var d := Delivered(Verdicts(ls, v, xs, live), count, |old(pool.free + pool.low)|, true);
      && pool.Valid() && |sent| == |d|
      && (sent != [] ==> Shipped(sent, d, count, old(kmsg.packet), old(kmsg.header), pool.free + pool.low,
                                 old(pool.free + pool.low), kmsg))
    ensures dead == Dead(Verdicts(ls, v, xs, live), count, |old(pool.free + pool.low)|, true)
    ensures sent == [] ==> pool.free == old(pool.free) + [kmsg] && pool.low == old(pool.low)
  {
    var fs := JudgeAll(ls, v, xs, live);
    forall i | 0 <= i < |fs| ensures Sensible(fs[i], count) {
      VerdictSensible(ls[i], v, xs[i], live, count);
    }
    sent, dead := pool.Run(kmsg, fs, count);
  }
}
