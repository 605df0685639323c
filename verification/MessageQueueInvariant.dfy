/**
 What every event on the message queues keeps.

 `Core(s, p, transit)` is the invariant for a state in which the messages `transit` have
 been counted in to port `p` but not placed yet: ipc_mqueue_send has one such message
 while it looks for a receiver, ipc_mqueue_move has those it has unlinked.
 */
module MessageQueueInvariant {

  import opened Options
  import opened MessageQueue

  // ---------------------------------------------------------------- counting threads

  datatype Role = Holds | HoldsUnforced | Woken

  /** Whether a thread counts against port `p` in the given role. */
  predicate Plays(th: Thread, p: nat, role: Role) {
    match role
    case Holds => (th.RcvHanded? || th.RcvHolding?) && th.kmsg.dest == p
    case HoldsUnforced => (th.RcvHanded? || th.RcvHolding?) && th.kmsg.dest == p && !th.kmsg.forced
    case Woken => th.SendWoken? && th.kmsg.dest == p
  }

  function Players(threads: map<nat, Thread>, p: nat, role: Role): set<nat> {
    set t | t in threads && Plays(threads[t], p, role)
  }

  function Count(threads: map<nat, Thread>, p: nat, role: Role): nat {
    |Players(threads, p, role)|
  }

  function One(b: bool): nat { if b then 1 else 0 }

  lemma PlayersSet(threads: map<nat, Thread>, t: nat, th: Thread, p: nat, role: Role)
    ensures Players(threads[t := th], p, role)
         == (Players(threads, p, role) - {t}) + (if Plays(th, p, role) then {t} else {})
  {}

  lemma CountSet(threads: map<nat, Thread>, t: nat, th: Thread, p: nat, role: Role)
    ensures Count(threads[t := th], p, role)
         == Count(threads, p, role) - One(t in threads && Plays(threads[t], p, role)) + One(Plays(th, p, role))
  {
    PlayersSet(threads, t, th, p, role);
    assert t in Players(threads, p, role) <==> t in threads && Plays(threads[t], p, role);
    Replace(Players(threads, p, role), t, Plays(th, p, role));
  }

  lemma Replace(a: set<nat>, t: nat, keep: bool)
    ensures |(a - {t}) + (if keep then {t} else {})| == |a| - One(t in a) + One(keep)
  {
    if t in a {
      assert a == (a - {t}) + {t};
    } else {
      assert a - {t} == a;
    }
    assert (a - {t}) + {} == a - {t};
  }

  lemma CountLeave(threads: map<nat, Thread>, t: nat, p: nat, role: Role)
    ensures Count(threads - {t}, p, role)
         == Count(threads, p, role) - One(t in threads && Plays(threads[t], p, role))
  {
    assert Players(threads - {t}, p, role) == (Players(threads, p, role) - {t}) + {};
    assert t in Players(threads, p, role) <==> t in threads && Plays(threads[t], p, role);
    Replace(Players(threads, p, role), t, false);
  }

  lemma UnforcedIsHeld(threads: map<nat, Thread>, p: nat)
    ensures Count(threads, p, HoldsUnforced) <= Count(threads, p, Holds)
  {
    SubsetSize(Players(threads, p, HoldsUnforced), Players(threads, p, Holds));
  }

  lemma SubsetSize<T>(a: set<T>, b: set<T>)
    requires a <= b
    ensures |a| <= |b|
  {
    assert b == a + (b - a);
  }

  // ---------------------------------------------------------------- message lists

  function Kmsgs(ts: seq<Taken>): seq<Kmsg> {
    seq(|ts|, i requires 0 <= i < |ts| => ts[i].kmsg)
  }

  function Unforced(ks: seq<Kmsg>): nat {
    if ks == [] then 0 else One(!ks[0].forced) + Unforced(ks[1..])
  }

  lemma UnforcedAtMost(ks: seq<Kmsg>)
    ensures Unforced(ks) <= |ks|
  {}

  lemma UnforcedConcat(a: seq<Kmsg>, b: seq<Kmsg>)
    ensures Unforced(a + b) == Unforced(a) + Unforced(b)
  {
    if a == [] {
      assert a + b == b;
    } else {
      assert (a + b)[1..] == a[1..] + b;
      UnforcedConcat(a[1..], b);
    }
  }

  lemma ForConcat(a: seq<Kmsg>, b: seq<Kmsg>, p: nat)
    ensures For(a + b, p) == For(a, p) + For(b, p)
  {
    if a == [] {
      assert a + b == b;
    } else {
      assert (a + b)[1..] == a[1..] + b;
      ForConcat(a[1..], b, p);
    }
  }

  lemma ForNotFor(ks: seq<Kmsg>, p: nat, p': nat)
    ensures For(NotFor(ks, p), p') == if p == p' then [] else For(ks, p')
  {}

  lemma ForNone(ks: seq<Kmsg>, p: nat)
    requires forall k <- ks :: k.dest != p
    ensures For(ks, p) == []
  {}

  // ---------------------------------------------------------------- the invariant

  /** A receiver is on a queue's list exactly when its own state says it waits there. */
  ghost predicate ReceiversListed(s: State) {
    && (forall q | q in s.queues :: Distinct(s.queues[q].threads))
    && (forall q, t | q in s.queues && t in s.queues[q].threads ::
          t in s.threads && s.threads[t].RcvBlocked? && s.threads[t].queue == q)
    && (forall t | t in s.threads && s.threads[t].RcvBlocked? ::
          s.threads[t].queue in s.queues && t in s.queues[s.threads[t].queue].threads)
  }

  /** A sender is on a port's blocked list exactly when its own state says so. */
  ghost predicate SendersListed(s: State) {
    && (forall p | p in s.ports :: Distinct(s.ports[p].blocked))
    && (forall p, t | p in s.ports && t in s.ports[p].blocked ::
          t in s.threads && s.threads[t].SendBlocked? && s.threads[t].kmsg.dest == p)
    && (forall t | t in s.threads && s.threads[t].SendBlocked? ::
          s.threads[t].kmsg.dest in s.ports && t in s.ports[s.threads[t].kmsg.dest].blocked)
  }

  predicate Carries(th: Thread) {
    th.SendWoken? || th.RcvHanded? || th.RcvHolding?
  }

  ghost predicate Addressed(s: State) {
    forall t | t in s.threads && Carries(s.threads[t]) :: s.threads[t].kmsg.dest in s.ports
  }

  /** A queued message is in the queue its port uses now. */
  ghost predicate Placed(s: State)
    requires Shaped(s)
  {
    forall q, k | q in s.queues && k in s.queues[q].messages :: k.dest in s.ports && Current(s, k.dest) == q
  }

  /** A queue with waiting receivers holds no messages. */
  ghost predicate Quiet(s: State) {
    forall q | q in s.queues :: s.queues[q].threads == [] || s.queues[q].messages == []
  }

  function Queued(s: State, p: nat): seq<Kmsg>
    requires p in s.ports && Current(s, p) in s.queues
  {
    For(s.queues[Current(s, p)].messages, p)
  }

  /** FIFO and exactly once: what was accepted is what was taken, then what is queued. */
  ghost predicate Ordered(s: State, p: nat, transit: seq<Kmsg>)
    requires p in s.ports && Current(s, p) in s.queues
  {
    var port := s.ports[p];
    && port.accepted == Kmsgs(port.taken) + Queued(s, p) + transit
    && (forall k <- port.accepted :: k.dest == p)
    && Numbered(port)
  }

  /** ip_msgcount counts the queued messages and those of receivers before their second half. */
  ghost predicate Counted(s: State, p: nat, transit: seq<Kmsg>)
    requires p in s.ports && Current(s, p) in s.queues
  {
    var port := s.ports[p];
    && port.msgcount == |Queued(s, p)| + Count(s.threads, p, Holds) + |transit|
    && Unforced(Queued(s, p)) + Count(s.threads, p, HoldsUnforced) + Unforced(transit) <= port.peak
    && port.qlimit <= port.peak
  }

  function TransitOf(p: nat, p0: nat, transit: seq<Kmsg>): seq<Kmsg> {
    if p == p0 then transit else []
  }

  ghost predicate Accounted(s: State, p0: nat, transit: seq<Kmsg>)
    requires Shaped(s)
  {
    forall p {:trigger Ordered(s, p, TransitOf(p, p0, transit))}
             {:trigger Counted(s, p, TransitOf(p, p0, transit))} | p in s.ports ::
      Ordered(s, p, TransitOf(p, p0, transit)) && Counted(s, p, TransitOf(p, p0, transit))
  }

  ghost predicate Structured(s: State) {
    Shaped(s) && ReceiversListed(s) && SendersListed(s) && Addressed(s) && Placed(s) && Quiet(s)
  }

  ghost predicate Core(s: State, p0: nat, transit: seq<Kmsg>) {
    Structured(s) && Accounted(s, p0, transit)
  }

  /** No receiver waits where no message can arrive. */
  ghost predicate Served(s: State) {
    && (forall p | p in s.ports && PortQueue(p) in s.queues && s.ports[p].pset.Some? ::
      s.queues[PortQueue(p)].threads == [])
    && (forall n | SetQueue(n) in s.queues && n !in s.activeSets :: s.queues[SetQueue(n)].threads == [])
  }

  ghost predicate Inv(s: State) {
    Core(s, 0, []) && Served(s)
  }

  // ---------------------------------------------------------------- the receiver loop

  lemma EnqueueLists(s: State, q: QueueId, k: Kmsg)
    requires q in s.queues && ReceiversListed(s) && SendersListed(s) && Addressed(s)
    ensures var r := Enqueue(s, q, k); ReceiversListed(r) && SendersListed(r) && Addressed(r)
  {
    var r := Enqueue(s, q, k);
    assert forall q' | q' in r.queues :: r.queues[q'].threads == s.queues[q'].threads;
  }

  lemma EnqueuePlaces(s: State, p: nat, k: Kmsg)
    requires Shaped(s) && Placed(s) && Quiet(s) && p in s.ports && k.dest == p
    requires s.queues[Current(s, p)].threads == []
    ensures var r := Enqueue(s, Current(s, p), k); Shaped(r) && Placed(r) && Quiet(r)
  {
    var q := Current(s, p);
    var r := Enqueue(s, q, k);
    assert forall p' | p' in r.ports :: Current(r, p') == Current(s, p');
    assert forall k' <- r.queues[q].messages :: k' in s.queues[q].messages || k' == k;
  }

  lemma EnqueueCore(s: State, p: nat, k: Kmsg, rest: seq<Kmsg>)
    requires Core(s, p, [k] + rest) && p in s.ports && k.dest == p
    requires s.queues[Current(s, p)].threads == []
    ensures Core(Enqueue(s, Current(s, p), k), p, rest)
  {
    EnqueueLists(s, Current(s, p), k);
    EnqueuePlaces(s, p, k);
    forall p' | p' in s.ports
      ensures Ordered(Enqueue(s, Current(s, p), k), p', TransitOf(p', p, rest))
      ensures Counted(Enqueue(s, Current(s, p), k), p', TransitOf(p', p, rest))
    {
      EnqueuePort(s, p, k, rest, p');
    }
  }

  lemma EnqueueQueued(s: State, p: nat, k: Kmsg)
    requires Shaped(s) && p in s.ports && k.dest == p
    ensures Queued(Enqueue(s, Current(s, p), k), p) == Queued(s, p) + [k]
  {
    ForConcat(s.queues[Current(s, p)].messages, [k], p);
  }

  lemma EnqueueOrdered(s: State, p: nat, k: Kmsg, rest: seq<Kmsg>)
    requires Shaped(s) && p in s.ports && k.dest == p && Ordered(s, p, [k] + rest)
    ensures Ordered(Enqueue(s, Current(s, p), k), p, rest)
  {
    EnqueueQueued(s, p, k);
    var done := Kmsgs(s.ports[p].taken);
    assert done + Queued(s, p) + ([k] + rest) == done + (Queued(s, p) + [k]) + rest;
  }

  lemma EnqueueCounted(s: State, p: nat, k: Kmsg, rest: seq<Kmsg>)
    requires Shaped(s) && p in s.ports && k.dest == p && Counted(s, p, [k] + rest)
    ensures Counted(Enqueue(s, Current(s, p), k), p, rest)
  {
    EnqueueQueued(s, p, k);
    UnforcedConcat(Queued(s, p), [k]);
    UnforcedConcat([k], rest);
  }

  lemma EnqueuePort(s: State, p: nat, k: Kmsg, rest: seq<Kmsg>, p': nat)
    requires Shaped(s) && p in s.ports && k.dest == p && p' in s.ports
    requires Ordered(s, p', TransitOf(p', p, [k] + rest)) && Counted(s, p', TransitOf(p', p, [k] + rest))
    ensures var r := Enqueue(s, Current(s, p), k);
      Ordered(r, p', TransitOf(p', p, rest)) && Counted(r, p', TransitOf(p', p, rest))
  {
    if p' == p {
      EnqueueOrdered(s, p, k, rest);
      EnqueueCounted(s, p, k, rest);
    } else {
      EnqueueOther(s, p, k, p');
    }
  }

  lemma EnqueueOther(s: State, p: nat, k: Kmsg, p': nat)
    requires Shaped(s) && p in s.ports && k.dest == p && p' in s.ports && p' != p
    ensures Queued(Enqueue(s, Current(s, p), k), p') == Queued(s, p')
  {
    var ks := s.queues[Current(s, p)].messages;
    ForConcat(ks, [k], p');
    assert For([k], p') == [];
    assert For(ks, p') + [] == For(ks, p');
  }

  predicate OffList(th: Thread) { !th.RcvBlocked? && !th.SendBlocked? }

  lemma FirstWaits(s: State, q: QueueId)
    requires ReceiversListed(s) && q in s.queues && s.queues[q].threads != []
    ensures var t := s.queues[q].threads[0]; t in s.threads && s.threads[t].RcvBlocked? && s.threads[t].queue == q
  {
    assert s.queues[q].threads[0] in s.queues[q].threads;
  }

  /** The first receiver leaves its queue with a new state. */
  lemma PopLists(s: State, q: QueueId, th: Thread)
    requires q in s.queues && s.queues[q].threads != []
    requires ReceiversListed(s) && SendersListed(s) && Addressed(s)
    requires OffList(th) && (Carries(th) ==> th.kmsg.dest in s.ports)
    ensures var r := SetThread(PopThread(s, q), s.queues[q].threads[0], th);
      ReceiversListed(r) && SendersListed(r) && Addressed(r)
  {
    PopReceivers(s, q, th);
    PopSenders(s, q, th);
  }

  lemma PopReceivers(s: State, q: QueueId, th: Thread)
    requires q in s.queues && s.queues[q].threads != [] && ReceiversListed(s) && OffList(th)
    ensures ReceiversListed(SetThread(PopThread(s, q), s.queues[q].threads[0], th))
  {
    var ts := s.queues[q].threads;
    var t := ts[0];
    var r := SetThread(PopThread(s, q), t, th);
    FirstWaits(s, q);
    assert forall x :: x in ts[1..] <==> x in ts && x != t;
    forall q', x | q' in r.queues && x in r.queues[q'].threads
      ensures x in r.threads && r.threads[x].RcvBlocked? && r.threads[x].queue == q'
    {
      assert x in s.queues[q'].threads && x != t;
    }
    forall x | x in r.threads && r.threads[x].RcvBlocked?
      ensures r.threads[x].queue in r.queues && x in r.queues[r.threads[x].queue].threads
    {
      assert x != t && x in s.queues[s.threads[x].queue].threads;
    }
  }

  lemma PopSenders(s: State, q: QueueId, th: Thread)
    requires q in s.queues && s.queues[q].threads != [] && ReceiversListed(s) && SendersListed(s) && Addressed(s)
    requires OffList(th) && (Carries(th) ==> th.kmsg.dest in s.ports)
    ensures var r := SetThread(PopThread(s, q), s.queues[q].threads[0], th); SendersListed(r) && Addressed(r)
  {
    FirstWaits(s, q);
    SetSenders(s, s.queues[q].threads[0], th);
  }

  /** A thread that is no blocked sender becomes another such. */
  lemma SetSenders(s: State, t: nat, th: Thread)
    requires SendersListed(s) && Addressed(s) && t in s.threads && !s.threads[t].SendBlocked?
    requires OffList(th) && (Carries(th) ==> th.kmsg.dest in s.ports)
    ensures forall r: State | r.ports == s.ports && r.threads == s.threads[t := th] :: SendersListed(r) && Addressed(r)
  {}

  /** Changes to a port that leave its blocked senders alone. */
  lemma PortLists(s: State, p: nat, port: Port)
    requires p in s.ports && port.blocked == s.ports[p].blocked
    requires ReceiversListed(s) && SendersListed(s) && Addressed(s)
    ensures var r := SetPort(s, p, port); ReceiversListed(r) && SendersListed(r) && Addressed(r)
  {
    var r := SetPort(s, p, port);
    assert forall p' | p' in r.ports :: r.ports[p'].blocked == s.ports[p'].blocked;
  }

  /** Placement depends on messages and membership only. */
  lemma SamePlaces(s: State, r: State)
    requires Shaped(s) && Placed(s) && Quiet(s)
    requires r.ports.Keys == s.ports.Keys && r.queues.Keys == s.queues.Keys
    requires forall p | p in s.ports :: r.ports[p].pset == s.ports[p].pset
    requires forall q | q in s.queues :: r.queues[q].messages == s.queues[q].messages
    requires forall q | q in s.queues :: s.queues[q].threads == [] ==> r.queues[q].threads == []
    ensures Shaped(r) && Placed(r) && Quiet(r)
    ensures forall p | p in s.ports :: Current(r, p) == Current(s, p) && Queued(r, p) == Queued(s, p)
  {
    assert forall p | p in s.ports :: Current(r, p) == Current(s, p);
  }

  lemma RejectCore(s: State, p: nat, k: Kmsg, transit: seq<Kmsg>)
    requires Core(s, p, transit) && p in s.ports && s.queues[Current(s, p)].threads != []
    ensures var q := Current(s, p);
      var r := SetThread(PopThread(s, q), s.queues[q].threads[0], RcvFailed(TooLarge(k.size)));
      Core(r, p, transit) && Current(r, p) == q
  {
    var q := Current(s, p);
    var t := s.queues[q].threads[0];
    var r := SetThread(PopThread(s, q), t, RcvFailed(TooLarge(k.size)));
    PopLists(s, q, RcvFailed(TooLarge(k.size)));
    SamePlaces(s, r);
    forall p' | p' in s.ports
      ensures Ordered(r, p', TransitOf(p', p, transit)) && Counted(r, p', TransitOf(p', p, transit))
    {
      RejectPort(s, r, q, p', TransitOf(p', p, transit), RcvFailed(TooLarge(k.size)));
    }
  }

  lemma RejectPort(s: State, r: State, q: QueueId, p: nat, transit: seq<Kmsg>, th: Thread)
    requires Shaped(s) && ReceiversListed(s) && q in s.queues && s.queues[q].threads != [] && th.RcvFailed?
    requires r == SetThread(PopThread(s, q), s.queues[q].threads[0], th)
    requires p in s.ports && Current(r, p) == Current(s, p) && Queued(r, p) == Queued(s, p)
    requires Ordered(s, p, transit) && Counted(s, p, transit)
    ensures Ordered(r, p, transit) && Counted(r, p, transit)
  {
    var t := s.queues[q].threads[0];
    assert t in s.queues[q].threads;
    CountSet(s.threads, t, th, p, Holds);
    CountSet(s.threads, t, th, p, HoldsUnforced);
  }

  lemma HandoffStructure(s: State, p: nat, k: Kmsg)
    requires Structured(s) && p in s.ports && k.dest == p
    requires s.queues[Current(s, p)].threads != []
    ensures var q := Current(s, p);
      var r := Handoff(PopThread(s, q), s.queues[q].threads[0], k);
      && Structured(r) && Queued(s, p) == []
      && (forall p' | p' in s.ports :: Current(r, p') == Current(s, p') && Queued(r, p') == Queued(s, p'))
  {
    var q := Current(s, p);
    var th := RcvHanded(k, s.ports[p].seqno, |s.ports[p].taken|);
    var s1 := SetThread(PopThread(s, q), s.queues[q].threads[0], th);
    PopLists(s, q, th);
    PortLists(s1, p, TakeSeqno(s.ports[p], k));
    SamePlaces(s, SetPort(s1, p, TakeSeqno(s.ports[p], k)));
  }

  lemma HandoffCore(s: State, p: nat, k: Kmsg, rest: seq<Kmsg>)
    requires Core(s, p, [k] + rest) && p in s.ports && k.dest == p
    requires s.queues[Current(s, p)].threads != []
    ensures var q := Current(s, p);
      Core(Handoff(PopThread(s, q), s.queues[q].threads[0], k), p, rest)
  {
    var q := Current(s, p);
    FirstWaits(s, q);
    HandoffStructure(s, p, k);
    HandoffPorts(s, Handoff(PopThread(s, q), s.queues[q].threads[0], k), s.queues[q].threads[0], p, k, rest);
  }

  lemma HandoffPorts(s: State, r: State, t: nat, p: nat, k: Kmsg, rest: seq<Kmsg>)
    requires Shaped(s) && Shaped(r) && p in s.ports && k.dest == p && Queued(s, p) == []
    requires r.ports == s.ports[p := TakeSeqno(s.ports[p], k)]
    requires r.threads == s.threads[t := RcvHanded(k, s.ports[p].seqno, |s.ports[p].taken|)]
    requires t in s.threads && s.threads[t].RcvBlocked?
    requires forall p' | p' in s.ports :: Current(r, p') == Current(s, p') && Queued(r, p') == Queued(s, p')
    requires Accounted(s, p, [k] + rest)
    ensures Accounted(r, p, rest)
  {
    forall p' | p' in s.ports
      ensures Ordered(r, p', TransitOf(p', p, rest)) && Counted(r, p', TransitOf(p', p, rest))
    {
      HandoffOrder(s, r, p, k, rest, p');
      HandoffCount(s, r, t, p, k, rest, p');
    }
  }

  /** The history of what a port gave out is numbered from zero, and the next number is its length. */
  ghost predicate Numbered(port: Port) {
    && port.seqno == |port.taken| % SEQNO_MODULUS
    && (forall i | 0 <= i < |port.taken| :: port.taken[i].seqno == i % SEQNO_MODULUS)
  }

  lemma TakeNumbered(port: Port, k: Kmsg)
    requires Numbered(port)
    ensures Numbered(TakeSeqno(port, k)) && Kmsgs(TakeSeqno(port, k).taken) == Kmsgs(port.taken) + [k]
  {
    SuccMod(|port.taken|);
  }

  lemma HandoffOrder(s: State, r: State, p: nat, k: Kmsg, rest: seq<Kmsg>, p': nat)
    requires Shaped(s) && p in s.ports && p' in s.ports && r.ports == s.ports[p := TakeSeqno(s.ports[p], k)]
    requires Current(r, p') == Current(s, p') && Current(r, p') in r.queues && Queued(r, p') == Queued(s, p')
    requires p' == p ==> Queued(s, p) == []
    requires Ordered(s, p', TransitOf(p', p, [k] + rest))
    ensures Ordered(r, p', TransitOf(p', p, rest))
  {
    if p' == p {
      var done := Kmsgs(s.ports[p].taken);
      TakeNumbered(s.ports[p], k);
      assert done + [] + ([k] + rest) == (done + [k]) + [] + rest;
    }
  }

  lemma SuccMod(n: nat)
    ensures (n % SEQNO_MODULUS + 1) % SEQNO_MODULUS == (n + 1) % SEQNO_MODULUS
  {}

  lemma HandoffCount(s: State, r: State, t: nat, p: nat, k: Kmsg, rest: seq<Kmsg>, p': nat)
    requires Shaped(s) && p in s.ports && p' in s.ports && k.dest == p
    requires r.ports == s.ports[p := TakeSeqno(s.ports[p], k)]
    requires r.threads == s.threads[t := RcvHanded(k, s.ports[p].seqno, |s.ports[p].taken|)]
    requires t in s.threads && s.threads[t].RcvBlocked?
    requires Current(r, p') == Current(s, p') && Current(r, p') in r.queues && Queued(r, p') == Queued(s, p')
    requires Counted(s, p', TransitOf(p', p, [k] + rest))
    ensures Counted(r, p', TransitOf(p', p, rest))
  {
    CountSet(s.threads, t, RcvHanded(k, s.ports[p].seqno, |s.ports[p].taken|), p', Holds);
    CountSet(s.threads, t, RcvHanded(k, s.ports[p].seqno, |s.ports[p].taken|), p', HoldsUnforced);
    UnforcedConcat([k], rest);
  }

  /** The receiver loop places one message in transit. */
  lemma OfferCore(s: State, p: nat, k: Kmsg, rest: seq<Kmsg>)
    requires Core(s, p, [k] + rest) && p in s.ports && k.dest == p
    ensures Core(Offer(s, Current(s, p), k), p, rest)
    ensures p in Offer(s, Current(s, p), k).ports && Current(Offer(s, Current(s, p), k), p) == Current(s, p)
    decreases |s.queues[Current(s, p)].threads|
  {
    var q := Current(s, p);
    var ts := s.queues[q].threads;
    if ts == [] {
      EnqueueCore(s, p, k, rest);
    } else if k.size <= Msize(s, ts[0]) {
      HandoffCore(s, p, k, rest);
    } else {
      RejectCore(s, p, k, [k] + rest);
      OfferCore(SetThread(PopThread(s, q), ts[0], RcvFailed(TooLarge(k.size))), p, k, rest);
    }
  }

  lemma OfferAllCore(s: State, p: nat, ks: seq<Kmsg>)
    requires Core(s, p, ks) && p in s.ports
    requires forall k <- ks :: k.dest == p
    ensures Core(OfferAll(s, Current(s, p), ks, p), p, [])
    decreases |ks|
  {
    if ks != [] {
      assert ks == [ks[0]] + ks[1..];
      OfferCore(s, p, ks[0], ks[1..]);
      OfferKeeps(s, Current(s, p), ks[0]);
      OfferAllCore(Offer(s, Current(s, p), ks[0]), p, ks[1..]);
    }
  }
}
