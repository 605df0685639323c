/** Each event keeps the invariant of MessageQueueInvariant. */
module MessageQueueSteps {

  import opened Options
  import opened MessageQueue
  import opened MessageQueueInvariant

  // ---------------------------------------------------------------- frames

  /** A thread on no list: running, woken, or between the halves of a receive. */
  predicate Free(s: State, t: nat) {
    t !in s.threads || OffList(s.threads[t])
  }

  ghost predicate Listed(s: State) {
    ReceiversListed(s) && SendersListed(s) && Addressed(s)
  }

  lemma LeaveListed(s: State, t: nat)
    requires Listed(s) && Free(s, t)
    ensures Listed(Leave(s, t))
  {}

  lemma SetListed(s: State, t: nat, th: Thread)
    requires Listed(s) && Free(s, t) && OffList(th) && (Carries(th) ==> th.kmsg.dest in s.ports)
    ensures Listed(SetThread(s, t, th))
  {}

  lemma PortListed(s: State, p: nat, port: Port)
    requires p in s.ports && port.blocked == s.ports[p].blocked && Listed(s)
    ensures Listed(SetPort(s, p, port))
  {
    PortLists(s, p, port);
  }

  lemma {:induction false} WithoutSome(ts: seq<nat>, t: nat)
    ensures forall x :: x in Without(ts, t) ==> x in ts
  {
    if ts != [] && ts[0] != t {
      WithoutSome(ts[1..], t);
    }
  }

  lemma {:induction false} WithoutOthers(ts: seq<nat>, t: nat, x: nat)
    requires x in ts && x != t
    ensures x in Without(ts, t)
  {
    if ts[0] != t && ts[0] != x {
      WithoutOthers(ts[1..], t, x);
    }
  }

  lemma {:induction false} WithoutDistinct(ts: seq<nat>, t: nat)
    requires Distinct(ts)
    ensures Distinct(Without(ts, t)) && t !in Without(ts, t)
  {
    if ts != [] && ts[0] != t {
      WithoutDistinct(ts[1..], t);
      WithoutSome(ts[1..], t);
      assert ts[0] !in ts[1..];
      DistinctCons(ts[0], Without(ts[1..], t));
    }
  }

  lemma DistinctCons(x: nat, ts: seq<nat>)
    requires Distinct(ts) && x !in ts
    ensures Distinct([x] + ts)
  {}

  lemma WithoutMembers(ts: seq<nat>, t: nat)
    requires Distinct(ts)
    ensures Distinct(Without(ts, t))
    ensures forall x :: x in Without(ts, t) <==> x in ts && x != t
  {
    WithoutDistinct(ts, t);
    WithoutSome(ts, t);
    forall x | x in ts && x != t ensures x in Without(ts, t) {
      WithoutOthers(ts, t, x);
    }
  }

  /** Two states in which every port's accounts are the same. */
  ghost predicate SameAccounts(s: State, r: State)
    requires Shaped(s) && Shaped(r)
  {
    && r.ports.Keys == s.ports.Keys
    && (forall p | p in s.ports ::
          && Queued(r, p) == Queued(s, p)
          && r.ports[p].(blocked := [], qlimit := 0, peak := 0, pset := None, done := {})
             == s.ports[p].(blocked := [], qlimit := 0, peak := 0, pset := None, done := {})
          && r.ports[p].qlimit <= r.ports[p].peak && s.ports[p].peak <= r.ports[p].peak
          && Count(r.threads, p, Holds) == Count(s.threads, p, Holds)
          && Count(r.threads, p, HoldsUnforced) == Count(s.threads, p, HoldsUnforced))
  }

  lemma AccountedBoth(s: State, r: State, p0: nat, transit: seq<Kmsg>)
    requires Shaped(s) && Shaped(r) && SameAccounts(s, r) && Accounted(s, p0, transit)
    ensures Accounted(r, p0, transit)
  {
    forall p | p in r.ports
      ensures Ordered(r, p, TransitOf(p, p0, transit)) && Counted(r, p, TransitOf(p, p0, transit))
    {
      assert Ordered(s, p, TransitOf(p, p0, transit)) && Counted(s, p, TransitOf(p, p0, transit));
      assert Queued(r, p) == Queued(s, p);
    }
  }

  predicate Holding(th: Thread) { th.RcvHanded? || th.RcvHolding? }

  /** A thread that holds no message before or after does not change the counts. */
  lemma QuietThread(threads: map<nat, Thread>, threads': map<nat, Thread>, t: nat, p: nat)
    requires threads' == threads - {t}
      || (t in threads' && threads' == threads[t := threads'[t]] && !Holding(threads'[t]))
    requires t in threads ==> !Holding(threads[t])
    ensures Count(threads', p, Holds) == Count(threads, p, Holds)
    ensures Count(threads', p, HoldsUnforced) == Count(threads, p, HoldsUnforced)
  {
    if threads' == threads - {t} {
      CountLeave(threads, t, p, Holds);
      CountLeave(threads, t, p, HoldsUnforced);
    } else {
      CountSet(threads, t, threads'[t], p, Holds);
      CountSet(threads, t, threads'[t], p, HoldsUnforced);
    }
  }

  /** Nothing but thread states and thread lists differ. */
  ghost predicate SameMessages(s: State, r: State) {
    && r.ports.Keys == s.ports.Keys && r.queues.Keys == s.queues.Keys
    && (forall p | p in s.ports :: r.ports[p].(blocked := []) == s.ports[p].(blocked := []))
    && (forall q | q in s.queues :: r.queues[q].messages == s.queues[q].messages)
  }

  /** Events that move one thread without touching messages keep the core invariant. */
  lemma QuietStep(s: State, r: State, t: nat)
    requires Core(s, 0, []) && Listed(r) && Quiet(r) && SameMessages(s, r)
    requires r.threads == s.threads - {t}
      || (t in r.threads && r.threads == s.threads[t := r.threads[t]] && !Holding(r.threads[t]))
    requires t in s.threads ==> !Holding(s.threads[t])
    ensures Core(r, 0, [])
  {
    QuietPlaces(s, r);
    forall p | p in s.ports
      ensures Count(r.threads, p, Holds) == Count(s.threads, p, Holds)
      ensures Count(r.threads, p, HoldsUnforced) == Count(s.threads, p, HoldsUnforced)
    {
      QuietThread(s.threads, r.threads, t, p);
    }
    SameFromCounts(s, r);
    AccountedBoth(s, r, 0, []);
  }

  lemma QuietPlaces(s: State, r: State)
    requires Shaped(s) && Placed(s) && SameMessages(s, r)
    ensures Shaped(r) && Placed(r)
    ensures forall p | p in s.ports :: Queued(r, p) == Queued(s, p)
  {
    assert forall p | p in s.ports :: r.ports[p].pset == r.ports[p].(blocked := []).pset;
    assert forall p | p in s.ports :: Current(r, p) == Current(s, p);
  }

  lemma SameFromCounts(s: State, r: State)
    requires Shaped(s) && Shaped(r) && Accounted(s, 0, []) && SameMessages(s, r)
    requires forall p | p in s.ports :: Queued(r, p) == Queued(s, p)
    requires forall p | p in s.ports ::
               && Count(r.threads, p, Holds) == Count(s.threads, p, Holds)
               && Count(r.threads, p, HoldsUnforced) == Count(s.threads, p, HoldsUnforced)
    ensures SameAccounts(s, r)
  {
    forall p | p in s.ports
      ensures r.ports[p].(blocked := [], qlimit := 0, peak := 0, pset := None, done := {})
           == s.ports[p].(blocked := [], qlimit := 0, peak := 0, pset := None, done := {})
      ensures r.ports[p].qlimit <= r.ports[p].peak && s.ports[p].peak <= r.ports[p].peak
    {
      var a, b := r.ports[p].(blocked := []), s.ports[p].(blocked := []);
      assert a == b;
      assert a.(qlimit := 0, peak := 0, pset := None, done := {})
        == b.(qlimit := 0, peak := 0, pset := None, done := {});
      assert Counted(s, p, TransitOf(p, 0, []));
      assert a.qlimit == r.ports[p].qlimit && a.peak == r.ports[p].peak;
    }
  }

  // ---------------------------------------------------------------- one thread at a time

  lemma LeaveStep(s: State, t: nat)
    requires Core(s, 0, []) && Free(s, t) && (t in s.threads ==> !Holding(s.threads[t]))
    ensures Core(Leave(s, t), 0, [])
  {
    LeaveListed(s, t);
    QuietStep(s, Leave(s, t), t);
  }

  function Block(s: State, t: nat, k: Kmsg, timed: bool): State
    requires k.dest in s.ports
  {
    SetPort(SetThread(s, t, SendBlocked(k, timed)), k.dest,
            s.ports[k.dest].(blocked := [t] + s.ports[k.dest].blocked))
  }

  lemma BlockListed(s: State, t: nat, k: Kmsg, timed: bool)
    requires Listed(s) && Free(s, t) && k.dest in s.ports
    ensures Listed(Block(s, t, k, timed))
  {
    var r := Block(s, t, k, timed);
    var before, after := s.ports[k.dest].blocked, r.ports[k.dest].blocked;
    assert t !in before;
    assert forall x :: x in after <==> x == t || x in before;
    assert Distinct(after);
  }

  lemma BlockSame(s: State, t: nat, k: Kmsg, timed: bool)
    requires k.dest in s.ports
    ensures SameMessages(s, Block(s, t, k, timed)) && Block(s, t, k, timed).queues == s.queues
  {}

  lemma BlockStep(s: State, t: nat, k: Kmsg, timed: bool)
    requires Core(s, 0, []) && Free(s, t) && (t in s.threads ==> !Holding(s.threads[t])) && k.dest in s.ports
    ensures Core(Block(s, t, k, timed), 0, [])
  {
    BlockListed(s, t, k, timed);
    BlockSame(s, t, k, timed);
    QuietStep(s, Block(s, t, k, timed), t);
  }

  lemma UnblockListed(s: State, t: nat, p: nat)
    requires Listed(s) && p in s.ports && t in s.threads && s.threads[t].SendBlocked? && s.threads[t].kmsg.dest == p
    ensures Listed(Unblock(s, t, p))
  {
    UnblockSenders(s, t, p);
    UnblockReceivers(s, t, p);
  }

  lemma UnblockSenders(s: State, t: nat, p: nat)
    requires SendersListed(s) && p in s.ports && t in s.threads && s.threads[t].SendBlocked?
      && s.threads[t].kmsg.dest == p
    ensures SendersListed(Unblock(s, t, p))
  {
    WithoutMembers(s.ports[p].blocked, t);
  }

  lemma UnblockReceivers(s: State, t: nat, p: nat)
    requires ReceiversListed(s) && Addressed(s) && p in s.ports && t in s.threads && s.threads[t].SendBlocked?
    ensures ReceiversListed(Unblock(s, t, p)) && Addressed(Unblock(s, t, p))
  {}

  lemma UnblockStep(s: State, t: nat)
    requires Core(s, 0, []) && t in s.threads && s.threads[t].SendBlocked?
    requires s.threads[t].kmsg.dest in s.ports
    ensures Core(Unblock(s, t, s.threads[t].kmsg.dest), 0, [])
  {
    var p := s.threads[t].kmsg.dest;
    UnblockListed(s, t, p);
    QuietStep(s, Unblock(s, t, p), t);
  }

  function Wait(s: State, t: nat, q: QueueId, maxSize: nat, timed: bool): State
    requires q in s.queues
  {
    SetThread(SetMqueue(s, q, s.queues[q].(threads := [t] + s.queues[q].threads)), t, RcvBlocked(q, maxSize, timed))
  }

  lemma WaitListed(s: State, t: nat, q: QueueId, maxSize: nat, timed: bool)
    requires Listed(s) && Free(s, t) && q in s.queues
    ensures Listed(Wait(s, t, q, maxSize, timed))
  {
    var r := Wait(s, t, q, maxSize, timed);
    var before, after := s.queues[q].threads, r.queues[q].threads;
    assert t !in before;
    assert forall x :: x in after <==> x == t || x in before;
    assert Distinct(after);
  }

  lemma WaitSame(s: State, t: nat, q: QueueId, maxSize: nat, timed: bool)
    requires q in s.queues && Quiet(s) && s.queues[q].messages == []
    ensures SameMessages(s, Wait(s, t, q, maxSize, timed)) && Quiet(Wait(s, t, q, maxSize, timed))
  {}

  lemma WaitStep(s: State, t: nat, q: QueueId, maxSize: nat, timed: bool)
    requires Core(s, 0, []) && t !in s.threads && q in s.queues && s.queues[q].messages == []
    ensures Core(Wait(s, t, q, maxSize, timed), 0, [])
  {
    WaitListed(s, t, q, maxSize, timed);
    WaitSame(s, t, q, maxSize, timed);
    QuietStep(s, Wait(s, t, q, maxSize, timed), t);
  }

  lemma UnwaitListed(s: State, t: nat, q: QueueId)
    requires Listed(s) && q in s.queues && t in s.threads && s.threads[t].RcvBlocked? && s.threads[t].queue == q
    ensures Listed(Unwait(s, t, q))
  {
    WithoutMembers(s.queues[q].threads, t);
  }

  lemma UnwaitStep(s: State, t: nat)
    requires Core(s, 0, []) && t in s.threads && s.threads[t].RcvBlocked? && s.threads[t].queue in s.queues
    ensures Core(Unwait(s, t, s.threads[t].queue), 0, [])
  {
    var q := s.threads[t].queue;
    UnwaitListed(s, t, q);
    QuietStep(s, Unwait(s, t, q), t);
  }

  lemma WakeSenderListed(s: State, p: nat)
    requires Listed(s) && p in s.ports && s.ports[p].blocked != []
    ensures Listed(WakeSender(s, p))
    ensures var t := s.ports[p].blocked[0]; t in s.threads && s.threads[t].SendBlocked? && s.threads[t].kmsg.dest == p
  {
    var ts := s.ports[p].blocked;
    var t := ts[0];
    assert t in ts;
    assert forall x | x in ts[1..] :: x in ts && x != t;
    assert forall x | x in ts && x != t :: x in ts[1..];
  }

  lemma WakeSenderQuiet(s: State, p: nat)
    requires Shaped(s) && Quiet(s) && p in s.ports && s.ports[p].blocked != []
    ensures Quiet(WakeSender(s, p)) && SameMessages(s, WakeSender(s, p))
  {}

  lemma WakeSenderStep(s: State, p: nat)
    requires Core(s, 0, []) && p in s.ports && s.ports[p].blocked != []
    ensures Core(WakeSender(s, p), 0, [])
  {
    WakeSenderListed(s, p);
    WakeSenderQuiet(s, p);
    QuietStep(s, WakeSender(s, p), s.ports[p].blocked[0]);
  }

  lemma WakeSomeStep(s: State, p: nat, n: nat)
    requires Core(s, 0, []) && p in s.ports
    ensures Core(WakeSome(s, p, n), 0, [])
    decreases n
  {
    if n != 0 && s.ports[p].blocked != [] {
      WakeSenderStep(s, p);
      WakeSomeStep(WakeSender(s, p), p, n - 1);
    }
  }

  lemma PopStep(s: State, q: QueueId, error: RcvError)
    requires Core(s, 0, []) && q in s.queues && s.queues[q].threads != []
    ensures Core(SetThread(PopThread(s, q), s.queues[q].threads[0], RcvFailed(error)), 0, [])
  {
    FirstWaits(s, q);
    PopLists(s, q, RcvFailed(error));
    QuietStep(s, SetThread(PopThread(s, q), s.queues[q].threads[0], RcvFailed(error)), s.queues[q].threads[0]);
  }

  lemma ChangedUnfold(s: State, q: QueueId, error: RcvError)
    requires q in s.queues
    ensures var ts := s.queues[q].threads;
      Changed(s, q, error) == if ts == [] then s
                              else Changed(SetThread(PopThread(s, q), ts[0], RcvFailed(error)), q, error)
  {
    var ts := s.queues[q].threads;
    if ts == [] {
      assert Changed(s, q, error).queues == s.queues;
    } else {
      var s1 := SetThread(PopThread(s, q), ts[0], RcvFailed(error));
      assert Changed(s1, q, error).queues == Changed(s, q, error).queues;
    }
  }

  /** ipc_mqueue_changed empties the list of receivers and touches nothing else. */
  lemma ChangedStep(s: State, q: QueueId, error: RcvError)
    requires Core(s, 0, []) && q in s.queues
    ensures Core(Changed(s, q, error), 0, [])
    decreases |s.queues[q].threads|
  {
    ChangedUnfold(s, q, error);
    if s.queues[q].threads != [] {
      PopStep(s, q, error);
      ChangedStep(SetThread(PopThread(s, q), s.queues[q].threads[0], RcvFailed(error)), q, error);
    }
  }

  // ---------------------------------------------------------------- messages in and out

  lemma CountInStructure(s: State, k: Kmsg)
    requires Structured(s) && k.dest in s.ports
    ensures Structured(CountedIn(s, k))
    ensures forall p | p in s.ports ::
      Current(CountedIn(s, k), p) == Current(s, p) && Queued(CountedIn(s, k), p) == Queued(s, p)
  {
    CountInLists(s, k);
    CountInPlaces(s, k);
  }

  lemma CountInLists(s: State, k: Kmsg)
    requires Listed(s) && k.dest in s.ports
    ensures Listed(CountedIn(s, k))
  {
    var port := s.ports[k.dest];
    PortLists(s, k.dest, port.(msgcount := port.msgcount + 1, accepted := port.accepted + [k]));
  }

  lemma CountInPlaces(s: State, k: Kmsg)
    requires Shaped(s) && Placed(s) && Quiet(s) && k.dest in s.ports
    ensures Shaped(CountedIn(s, k)) && Placed(CountedIn(s, k)) && Quiet(CountedIn(s, k))
    ensures forall p | p in s.ports ::
      Current(CountedIn(s, k), p) == Current(s, p) && Queued(CountedIn(s, k), p) == Queued(s, p)
  {
    SamePlaces(s, CountedIn(s, k));
  }

  lemma CountInPorts(s: State, r: State, k: Kmsg)
    requires Shaped(s) && Shaped(r) && k.dest in s.ports && HasRoom(s, k) && r == CountedIn(s, k)
    requires forall p | p in s.ports :: Queued(r, p) == Queued(s, p)
    requires Accounted(s, 0, [])
    ensures Accounted(r, k.dest, [k])
  {
    forall p | p in s.ports
      ensures Ordered(r, p, TransitOf(p, k.dest, [k])) && Counted(r, p, TransitOf(p, k.dest, [k]))
    {
      CountInPort(s, r, k, p);
    }
  }

  /** Counting a message in puts it in transit. */
  lemma CountIn(s: State, k: Kmsg)
    requires Core(s, 0, []) && k.dest in s.ports && HasRoom(s, k)
    ensures Core(CountedIn(s, k), k.dest, [k])
  {
    CountInStructure(s, k);
    CountInPorts(s, CountedIn(s, k), k);
  }

  lemma CountInPort(s: State, r: State, k: Kmsg, p: nat)
    requires Shaped(s) && k.dest in s.ports && HasRoom(s, k) && p in s.ports && r == CountedIn(s, k)
    requires Queued(r, p) == Queued(s, p)
    requires Ordered(s, p, TransitOf(p, 0, [])) && Counted(s, p, TransitOf(p, 0, []))
    ensures Ordered(r, p, TransitOf(p, k.dest, [k])) && Counted(r, p, TransitOf(p, k.dest, [k]))
  {
    assert TransitOf(p, 0, []) == [];
    if p == k.dest {
      var before := Kmsgs(s.ports[p].taken) + Queued(s, p);
      assert before + [] == before;
      UnforcedAtMost(Queued(s, p));
      UnforcedIsHeld(s.threads, p);
    }
  }

  lemma AcceptStep(s: State, t: nat, k: Kmsg)
    requires Core(s, 0, []) && Free(s, t) && (t in s.threads ==> !Holding(s.threads[t]))
    requires k.dest in s.ports && HasRoom(s, k)
    ensures Core(Accept(s, t, k), 0, [])
  {
    if k.circular {
      LeaveStep(s, t);
    } else {
      LeaveStep(s, t);
      CountIn(Leave(s, t), k);
      OfferLast(CountedIn(Leave(s, t), k), k.dest, k);
    }
  }

  lemma OfferLast(s: State, p: nat, k: Kmsg)
    requires Core(s, p, [k]) && p in s.ports && k.dest == p
    ensures Core(Offer(s, Current(s, p), k), 0, [])
  {
    assert [k] + [] == [k];
    OfferCore(s, p, k, []);
    NoTransit(Offer(s, Current(s, p), k), p);
  }

  lemma NoTransit(s: State, p: nat)
    requires Core(s, p, [])
    ensures Core(s, 0, [])
  {
    forall p' | p' in s.ports
      ensures Ordered(s, p', TransitOf(p', 0, [])) && Counted(s, p', TransitOf(p', 0, []))
    {
      assert Ordered(s, p', TransitOf(p', p, [])) && Counted(s, p', TransitOf(p', p, []));
    }
  }

  /** One turn of the send loop, from any thread that is not on a list. */
  lemma TrySendStep(s: State, t: nat, k: Kmsg, timed: bool, now: bool)
    requires Core(s, 0, []) && Free(s, t) && (t in s.threads ==> !Holding(s.threads[t])) && k.dest in s.ports
    ensures Core(TrySend(s, t, k, timed, now), 0, [])
  {
    if HasRoom(s, k) {
      AcceptStep(s, t, k);
    } else if timed && now {
      LeaveStep(s, t);
    } else {
      BlockStep(s, t, k, timed);
    }
  }

  function Take(s: State, t: nat, q: QueueId): State
    requires q in s.queues && s.queues[q].messages != [] && s.queues[q].messages[0].dest in s.ports
  {
    var k := s.queues[q].messages[0];
    SetPort(SetThread(SetMqueue(s, q, s.queues[q].(messages := s.queues[q].messages[1..])),
                      t, RcvHolding(k, s.ports[k.dest].seqno, |s.ports[k.dest].taken|)),
            k.dest, TakeSeqno(s.ports[k.dest], k))
  }

  lemma TakeListed(s: State, t: nat, q: QueueId)
    requires Listed(s) && t !in s.threads
    requires q in s.queues && s.queues[q].messages != [] && s.queues[q].messages[0].dest in s.ports
    ensures Listed(Take(s, t, q))
  {
    var k := s.queues[q].messages[0];
    var s1 := SetMqueue(s, q, s.queues[q].(messages := s.queues[q].messages[1..]));
    MessagesListed(s, q, s.queues[q].messages[1..]);
    SetListed(s1, t, RcvHolding(k, s.ports[k.dest].seqno, |s.ports[k.dest].taken|));
    PortListed(SetThread(s1, t, RcvHolding(k, s.ports[k.dest].seqno, |s.ports[k.dest].taken|)), k.dest,
      TakeSeqno(s.ports[k.dest], k));
  }

  lemma TakePlaces(s: State, t: nat, q: QueueId)
    requires Shaped(s) && Placed(s) && Quiet(s) && q in s.queues && s.queues[q].messages != []
    ensures Shaped(Take(s, t, q)) && Placed(Take(s, t, q)) && Quiet(Take(s, t, q))
  {
    var ks := s.queues[q].messages;
    var r := Take(s, t, q);
    assert ks[0] in ks;
    assert forall p | p in s.ports :: Current(r, p) == Current(s, p);
    assert forall k | k in ks[1..] :: k in ks;
  }

  function FirstFor(s: State, q: QueueId, p: nat): seq<Kmsg>
    requires q in s.queues && s.queues[q].messages != []
  {
    if p == s.queues[q].messages[0].dest then [s.queues[q].messages[0]] else []
  }

  lemma TakeQueued(s: State, t: nat, q: QueueId, p: nat)
    requires Shaped(s) && Placed(s) && q in s.queues && s.queues[q].messages != [] && p in s.ports
    ensures Current(Take(s, t, q), p) == Current(s, p)
    ensures Queued(s, p) == FirstFor(s, q, p) + Queued(Take(s, t, q), p)
  {
    var ks := s.queues[q].messages;
    assert ks[0] in ks;
    assert Current(Take(s, t, q), p) == Current(s, p);
    if Current(s, p) != q {
      assert ks[0].dest != p;
      assert Queued(Take(s, t, q), p) == Queued(s, p);
    }
  }

  lemma TakeOrder(s: State, t: nat, q: QueueId, p: nat)
    requires Shaped(s) && p in s.ports && q in s.queues && s.queues[q].messages != [] && Shaped(Take(s, t, q))
    requires Queued(s, p) == FirstFor(s, q, p) + Queued(Take(s, t, q), p)
    requires Ordered(s, p, [])
    ensures Ordered(Take(s, t, q), p, [])
  {
    var k := s.queues[q].messages[0];
    var r := Take(s, t, q);
    if p == k.dest {
      var done := Kmsgs(s.ports[p].taken);
      TakeNumbered(s.ports[p], k);
      assert done + ([k] + Queued(r, p)) == (done + [k]) + Queued(r, p);
    } else {
      assert [] + Queued(r, p) == Queued(r, p);
    }
  }

  lemma TakeCount(s: State, t: nat, q: QueueId, p: nat)
    requires Shaped(s) && t !in s.threads && p in s.ports
    requires q in s.queues && s.queues[q].messages != [] && Shaped(Take(s, t, q))
    requires Queued(s, p) == FirstFor(s, q, p) + Queued(Take(s, t, q), p)
    requires Counted(s, p, [])
    ensures Counted(Take(s, t, q), p, [])
  {
    var k := s.queues[q].messages[0];
    CountSet(s.threads, t, RcvHolding(k, s.ports[k.dest].seqno, |s.ports[k.dest].taken|), p, Holds);
    CountSet(s.threads, t, RcvHolding(k, s.ports[k.dest].seqno, |s.ports[k.dest].taken|), p, HoldsUnforced);
    UnforcedConcat(FirstFor(s, q, p), Queued(Take(s, t, q), p));
  }

  lemma TakeStep(s: State, t: nat, q: QueueId)
    requires Core(s, 0, []) && t !in s.threads && q in s.queues && s.queues[q].messages != []
    ensures Core(Take(s, t, q), 0, [])
  {
    TakeListed(s, t, q);
    TakePlaces(s, t, q);
    TakePorts(s, t, q);
  }

  lemma TakePorts(s: State, t: nat, q: QueueId)
    requires Shaped(s) && Placed(s) && q in s.queues && s.queues[q].messages != [] && t !in s.threads
    requires Shaped(Take(s, t, q)) && Accounted(s, 0, [])
    ensures Accounted(Take(s, t, q), 0, [])
  {
    forall p | p in s.ports
      ensures Ordered(Take(s, t, q), p, TransitOf(p, 0, [])) && Counted(Take(s, t, q), p, TransitOf(p, 0, []))
    {
      assert Ordered(s, p, TransitOf(p, 0, [])) && Counted(s, p, TransitOf(p, 0, []));
      assert TransitOf(p, 0, []) == [];
      TakeQueued(s, t, q, p);
      TakeOrder(s, t, q, p);
      TakeCount(s, t, q, p);
    }
  }

  /** One turn of the receive loop, from a thread that is in no call. */
  lemma TryReceiveStep(s: State, t: nat, q: QueueId, maxSize: nat, timed: bool, now: bool)
    requires Core(s, 0, []) && t !in s.threads && q in s.queues
    ensures Core(TryReceive(s, t, q, maxSize, timed, now), 0, [])
  {
    if s.queues[q].messages != [] {
      if s.queues[q].messages[0].size > maxSize {
        LeaveStep(s, t);
      } else {
        TakeStep(s, t, q);
      }
    } else if timed && now {
      LeaveStep(s, t);
    } else {
      WaitStep(s, t, q, maxSize, timed);
    }
  }

  // ---------------------------------------------------------------- the second half

  lemma CountOutPort(s: State, t: nat, p: nat, p': nat)
    requires Shaped(s) && p in s.ports && p' in s.ports
    requires t in s.threads && s.threads[t].RcvHolding? && s.threads[t].kmsg.dest == p
    requires Shaped(CountedOut(s, t, p)) && Queued(CountedOut(s, t, p), p') == Queued(s, p')
    requires Ordered(s, p', []) && Counted(s, p', [])
    ensures Ordered(CountedOut(s, t, p), p', []) && Counted(CountedOut(s, t, p), p', [])
  {
    CountLeave(s.threads, t, p', Holds);
    CountLeave(s.threads, t, p', HoldsUnforced);
  }

  lemma CountOutPorts(s: State, t: nat, p: nat)
    requires Shaped(s) && p in s.ports && t in s.threads && s.threads[t].RcvHolding? && s.threads[t].kmsg.dest == p
    requires Shaped(CountedOut(s, t, p))
    requires forall p' | p' in s.ports :: Queued(CountedOut(s, t, p), p') == Queued(s, p')
    requires Accounted(s, 0, [])
    ensures Accounted(CountedOut(s, t, p), 0, [])
  {
    forall p' | p' in s.ports
      ensures Ordered(CountedOut(s, t, p), p', TransitOf(p', 0, []))
        && Counted(CountedOut(s, t, p), p', TransitOf(p', 0, []))
    {
      assert Ordered(s, p', TransitOf(p', 0, [])) && Counted(s, p', TransitOf(p', 0, []));
      assert TransitOf(p', 0, []) == [];
      CountOutPort(s, t, p, p');
    }
  }

  lemma CountOutStructure(s: State, t: nat, p: nat)
    requires Structured(s) && p in s.ports && t in s.threads && s.threads[t].RcvHolding?
    ensures Structured(CountedOut(s, t, p))
    ensures forall p' | p' in s.ports :: Queued(CountedOut(s, t, p), p') == Queued(s, p')
  {
    LeaveListed(s, t);
    PortListed(Leave(s, t), p, CountedOut(s, t, p).ports[p]);
    SamePlaces(s, CountedOut(s, t, p));
  }

  lemma FinishStep(s: State, t: nat)
    requires Core(s, 0, []) && t in s.threads && s.threads[t].RcvHolding? && s.threads[t].kmsg.dest in s.ports
    ensures Core(Finish(s, t, s.threads[t].kmsg.dest), 0, [])
  {
    var p := s.threads[t].kmsg.dest;
    CountOutStructure(s, t, p);
    CountOutPorts(s, t, p);
    var port := s.ports[p];
    if port.blocked != [] && port.msgcount - 1 < port.qlimit {
      WakeSenderStep(CountedOut(s, t, p), p);
    }
  }

  /** The source asserts `port->ip_msgcount > 0` before it decrements the count. */
  lemma FinishCountPositive(s: State, t: nat)
    requires Core(s, 0, []) && t in s.threads && s.threads[t].RcvHolding? && s.threads[t].kmsg.dest in s.ports
    ensures s.ports[s.threads[t].kmsg.dest].msgcount > 0
  {
    var p := s.threads[t].kmsg.dest;
    assert Counted(s, p, TransitOf(p, 0, []));
    assert t in Players(s.threads, p, Holds);
  }

  // ---------------------------------------------------------------- port sets

  /** The state in which ipc_mqueue_move has unlinked the port's messages from `source`. */
  function Unlinked(s: State, p: nat, pset: Option<nat>, source: QueueId): State
    requires p in s.ports && source in s.queues
  {
    SetMqueue(SetPort(s, p, s.ports[p].(pset := pset)), source,
              s.queues[source].(messages := NotFor(s.queues[source].messages, p)))
  }

  function Home(p: nat, pset: Option<nat>): QueueId {
    match pset
    case None => PortQueue(p)
    case Some(n) => SetQueue(n)
  }

  lemma UnlinkListed(s: State, p: nat, pset: Option<nat>)
    requires Listed(s) && Shaped(s) && p in s.ports
    ensures Listed(Unlinked(s, p, pset, Current(s, p)))
  {
    PortListed(s, p, s.ports[p].(pset := pset));
    MessagesListed(SetPort(s, p, s.ports[p].(pset := pset)), Current(s, p),
      NotFor(s.queues[Current(s, p)].messages, p));
  }

  lemma MessagesListed(s: State, q: QueueId, ks: seq<Kmsg>)
    requires Listed(s) && q in s.queues
    ensures Listed(SetMqueue(s, q, s.queues[q].(messages := ks)))
  {
    var r := SetMqueue(s, q, s.queues[q].(messages := ks));
    assert forall q' | q' in r.queues :: r.queues[q'].threads == s.queues[q'].threads;
  }

  lemma UnlinkPlaces(s: State, p: nat, pset: Option<nat>)
    requires Shaped(s) && Placed(s) && Quiet(s) && p in s.ports
    requires Home(p, pset) in s.queues && Home(p, pset) != Current(s, p)
    ensures var r := Unlinked(s, p, pset, Current(s, p)); Shaped(r) && Placed(r) && Quiet(r)
  {
    var source := Current(s, p);
    var r := Unlinked(s, p, pset, source);
    assert forall p' | p' in s.ports && p' != p :: Current(r, p') == Current(s, p');
    assert Current(r, p) == Home(p, pset);
    forall q, k | q in r.queues && k in r.queues[q].messages
      ensures k.dest in r.ports && Current(r, k.dest) == q
    {
      assert k in s.queues[q].messages;
      assert Current(s, k.dest) == q;
      assert k.dest != p;
    }
  }

  lemma UnlinkQueued(s: State, p: nat, pset: Option<nat>, p': nat)
    requires Shaped(s) && Placed(s) && p in s.ports && p' in s.ports
    requires Home(p, pset) in s.queues && Home(p, pset) != Current(s, p)
    ensures var r := Unlinked(s, p, pset, Current(s, p));
      && Current(r, p') in r.queues
      && Queued(s, p') == Queued(r, p') + TransitOf(p', p, For(s.queues[Current(s, p)].messages, p))
  {
    var source := Current(s, p);
    var ks := s.queues[source].messages;
    var r := Unlinked(s, p, pset, source);
    if p' == p {
      assert Current(r, p) == Home(p, pset);
      ForNone(s.queues[Home(p, pset)].messages, p);
      assert Queued(r, p) == [];
      assert [] + For(ks, p) == For(ks, p);
    } else {
      assert Current(r, p') == Current(s, p');
      if Current(s, p') == source {
        ForNotFor(ks, p, p');
      }
      assert Queued(r, p') == Queued(s, p');
      assert Queued(r, p') + [] == Queued(r, p');
    }
  }

  lemma SplitOrder(s: State, r: State, p: nat, transit: seq<Kmsg>)
    requires p in s.ports && p in r.ports && Current(s, p) in s.queues && Current(r, p) in r.queues
    requires r.ports[p].(pset := None) == s.ports[p].(pset := None)
    requires Queued(s, p) == Queued(r, p) + transit && Ordered(s, p, [])
    ensures Ordered(r, p, transit)
  {
    var done := Kmsgs(s.ports[p].taken);
    assert done + (Queued(r, p) + transit) + [] == done + Queued(r, p) + transit;
    assert r.ports[p].(pset := None).taken == s.ports[p].(pset := None).taken;
  }

  lemma SplitCount(s: State, r: State, p: nat, transit: seq<Kmsg>)
    requires p in s.ports && p in r.ports && Current(s, p) in s.queues && Current(r, p) in r.queues
    requires r.ports[p].(pset := None) == s.ports[p].(pset := None) && r.threads == s.threads
    requires Queued(s, p) == Queued(r, p) + transit && Counted(s, p, [])
    ensures Counted(r, p, transit)
  {
    UnforcedConcat(Queued(r, p), transit);
    assert r.ports[p].(pset := None).msgcount == s.ports[p].(pset := None).msgcount;
  }

  lemma UnlinkPorts(s: State, p: nat, pset: Option<nat>)
    requires Shaped(s) && Placed(s) && p in s.ports && Accounted(s, 0, [])
    requires Home(p, pset) in s.queues && Home(p, pset) != Current(s, p)
    requires Shaped(Unlinked(s, p, pset, Current(s, p)))
    ensures Accounted(Unlinked(s, p, pset, Current(s, p)), p, For(s.queues[Current(s, p)].messages, p))
  {
    var r := Unlinked(s, p, pset, Current(s, p));
    forall p' | p' in s.ports
      ensures Ordered(r, p', TransitOf(p', p, For(s.queues[Current(s, p)].messages, p)))
      ensures Counted(r, p', TransitOf(p', p, For(s.queues[Current(s, p)].messages, p)))
    {
      assert Ordered(s, p', TransitOf(p', 0, [])) && Counted(s, p', TransitOf(p', 0, []));
      assert TransitOf(p', 0, []) == [];
      UnlinkQueued(s, p, pset, p');
      SplitOrder(s, r, p', TransitOf(p', p, For(s.queues[Current(s, p)].messages, p)));
      SplitCount(s, r, p', TransitOf(p', p, For(s.queues[Current(s, p)].messages, p)));
    }
  }

  lemma UnlinkCore(s: State, p: nat, pset: Option<nat>)
    requires Core(s, 0, []) && p in s.ports
    requires Home(p, pset) in s.queues && Home(p, pset) != Current(s, p)
    ensures Core(Unlinked(s, p, pset, Current(s, p)), p, For(s.queues[Current(s, p)].messages, p))
  {
    UnlinkListed(s, p, pset);
    UnlinkPlaces(s, p, pset);
    UnlinkPorts(s, p, pset);
  }

  /** ipc_mqueue_move, with the change of ip_pset that comes before it. */
  lemma MoveStep(s: State, p: nat, pset: Option<nat>)
    requires Core(s, 0, []) && p in s.ports
    requires Home(p, pset) in s.queues && Home(p, pset) != Current(s, p)
    ensures Core(Move(SetPort(s, p, s.ports[p].(pset := pset)), Home(p, pset), Current(s, p), p), 0, [])
  {
    UnlinkCore(s, p, pset);
    MoveRest(Unlinked(s, p, pset, Current(s, p)), p, For(s.queues[Current(s, p)].messages, p));
  }

  lemma MoveRest(s: State, p: nat, ks: seq<Kmsg>)
    requires Core(s, p, ks) && p in s.ports
    requires forall k <- ks :: k.dest == p
    ensures Core(OfferAll(s, Current(s, p), ks, p), 0, [])
  {
    OfferAllCore(s, p, ks);
    NoTransit(OfferAll(s, Current(s, p), ks, p), p);
  }

  lemma QlimitStep(s: State, p: nat, qlimit: nat)
    requires Core(s, 0, []) && p in s.ports
    ensures Core(ChangeQlimit(s, p, qlimit), 0, [])
  {
    WakeSomeStep(s, p, ExtraRoom(s, p, qlimit));
    LimitStep(WakeSome(s, p, ExtraRoom(s, p, qlimit)), p, qlimit);
  }

  lemma LimitPlaces(s: State, p: nat, port: Port)
    requires Shaped(s) && Placed(s) && Quiet(s) && p in s.ports && port.pset == s.ports[p].pset
    ensures var r := SetPort(s, p, port); Shaped(r) && Placed(r) && Quiet(r)
  {
    SamePlaces(s, SetPort(s, p, port));
  }

  lemma LimitStep(s: State, p: nat, qlimit: nat)
    requires Core(s, 0, []) && p in s.ports
    ensures Core(Limited(s, p, qlimit), 0, [])
  {
    var port := s.ports[p].(qlimit := qlimit, peak := if qlimit > s.ports[p].peak then qlimit else s.ports[p].peak);
    PortListed(s, p, port);
    LimitPlaces(s, p, port);
    LimitAccounts(s, p, port);
    AccountedBoth(s, SetPort(s, p, port), 0, []);
  }

  lemma LimitAccounts(s: State, p: nat, port: Port)
    requires Shaped(s) && Accounted(s, 0, []) && p in s.ports && Shaped(SetPort(s, p, port))
    requires port == s.ports[p].(qlimit := port.qlimit, peak := port.peak)
    requires port.qlimit <= port.peak && s.ports[p].peak <= port.peak
    ensures SameAccounts(s, SetPort(s, p, port))
  {
    var r := SetPort(s, p, port);
    forall p' | p' in s.ports
      ensures Queued(r, p') == Queued(s, p') && r.ports[p'].qlimit <= r.ports[p'].peak
    {
      assert Counted(s, p', TransitOf(p', 0, []));
      assert Current(r, p') == Current(s, p');
    }
  }

  // ---------------------------------------------------------------- where receivers wait

  /** No receiver joins a queue and no queue changes hands. */
  ghost predicate NoNewWaiter(s: State, r: State) {
    && r.ports.Keys == s.ports.Keys && r.queues.Keys == s.queues.Keys && r.activeSets == s.activeSets
    && (forall q | q in s.queues && s.queues[q].threads == [] :: r.queues[q].threads == [])
    && (forall p | p in s.ports :: r.ports[p].pset == s.ports[p].pset)
  }

  lemma OfferNoNewWaiter(s: State, q: QueueId, k: Kmsg)
    requires q in s.queues && k.dest in s.ports
    ensures NoNewWaiter(s, Offer(s, q, k))
    decreases |s.queues[q].threads|
  {
    var ts := s.queues[q].threads;
    if ts != [] && k.size > Msize(s, ts[0]) {
      OfferNoNewWaiter(SetThread(PopThread(s, q), ts[0], RcvFailed(TooLarge(k.size))), q, k);
    }
  }

  lemma OfferAllNoNewWaiter(s: State, q: QueueId, ks: seq<Kmsg>, p: nat)
    requires q in s.queues && p in s.ports && forall k <- ks :: k.dest == p
    ensures NoNewWaiter(s, OfferAll(s, q, ks, p))
    decreases |ks|
  {
    if ks != [] {
      OfferKeeps(s, q, ks[0]);
      OfferNoNewWaiter(s, q, ks[0]);
      OfferAllNoNewWaiter(Offer(s, q, ks[0]), q, ks[1..], p);
    }
  }

  lemma ServedStays(s: State, r: State)
    requires Served(s) && NoNewWaiter(s, r)
    ensures Served(r)
  {}

  lemma SendServed(s: State, t: nat, k: Kmsg, timed: bool, now: bool)
    requires Served(s) && k.dest in s.ports && Current(s, k.dest) in s.queues
    ensures Served(TrySend(s, t, k, timed, now))
  {
    if HasRoom(s, k) && !k.circular {
      OfferNoNewWaiter(CountedIn(Leave(s, t), k), Current(s, k.dest), k);
    }
    assert NoNewWaiter(s, TrySend(s, t, k, timed, now));
  }

  lemma ReceiveServed(s: State, t: nat, q: QueueId, maxSize: nat, timed: bool, now: bool)
    requires Served(s) && Shaped(s) && q in s.queues
    requires (match q
              case PortQueue(p) => p in s.ports ==> s.ports[p].pset.None?
              case SetQueue(n) => n in s.activeSets)
          || (timed && now)
    ensures Served(TryReceive(s, t, q, maxSize, timed, now))
  {
    if s.queues[q].messages != [] || (timed && now) {
      assert NoNewWaiter(s, TryReceive(s, t, q, maxSize, timed, now));
    }
  }

  lemma AddServed(s: State, p: nat, n: nat)
    requires Served(s) && Shaped(s) && p in s.ports && SetQueue(n) in s.queues && n in s.activeSets
    ensures Served(AddToSet(s, p, n))
  {
    var ks := s.queues[PortQueue(p)].messages;
    var s1 := Unlinked(s, p, Some(n), PortQueue(p));
    OfferAllNoNewWaiter(s1, SetQueue(n), For(ks, p), p);
    var s2 := OfferAll(s1, SetQueue(n), For(ks, p), p);
    var r := Changed(s2, PortQueue(p), PortChanged);
    assert r == AddToSet(s, p, n);
    forall p' | p' in r.ports && PortQueue(p') in r.queues && r.ports[p'].pset.Some?
      ensures r.queues[PortQueue(p')].threads == []
    {}
  }

  lemma RemoveServed(s: State, p: nat)
    requires Served(s) && Shaped(s) && p in s.ports && s.ports[p].pset.Some?
    ensures Served(RemoveFromSet(s, p))
  {
    var source := Current(s, p);
    var ks := s.queues[source].messages;
    OfferAllNoNewWaiter(Unlinked(s, p, None, source), PortQueue(p), For(ks, p), p);
    ServedStays(Unlinked(s, p, None, source), RemoveFromSet(s, p));
  }

  // ---------------------------------------------------------------- every event

  lemma ApplySend(s: State, e: Event)
    requires Core(s, 0, []) && Enabled(s, e)
    requires e.Send? || e.SendResume? || e.SendTimeout? || e.SendInterrupt?
    ensures Core(Apply(s, e), 0, [])
  {
    match e {
      case Send(t, k, timed, now) => TrySendStep(s, t, k, timed, now);
      case SendResume(t) => TrySendStep(s, t, s.threads[t].kmsg, s.threads[t].timed, false);
      case SendTimeout(t) =>
        UnblockStep(s, t);
        TrySendStep(Unblock(s, t, s.threads[t].kmsg.dest), t, s.threads[t].kmsg, true, true);
      case SendInterrupt(t) => UnblockStep(s, t);
    }
  }

  lemma ApplyReceive(s: State, e: Event)
    requires Core(s, 0, []) && Enabled(s, e)
    requires e.Receive? || e.ReceiveResume? || e.ReceiveTimeout? || e.ReceiveInterrupt? || e.ReceiveFinish?
    ensures Core(Apply(s, e), 0, [])
  {
    match e {
      case Receive(t, q, maxSize, timed, now) => TryReceiveStep(s, t, q, maxSize, timed, now);
      case ReceiveResume(t) => ResumeStep(s, t);
      case ReceiveTimeout(t) =>
        UnwaitStep(s, t);
        TryReceiveStep(Unwait(s, t, s.threads[t].queue), t, s.threads[t].queue, s.threads[t].msize, true, true);
      case ReceiveInterrupt(t) => UnwaitStep(s, t);
      case ReceiveFinish(t) => FinishStep(s, t);
    }
  }

  lemma AddStep(s: State, p: nat, n: nat)
    requires Core(s, 0, []) && p in s.ports && s.ports[p].pset.None? && SetQueue(n) in s.queues
    ensures Core(AddToSet(s, p, n), 0, [])
  {
    MoveStep(s, p, Some(n));
    OfferAllKeeps(Unlinked(s, p, Some(n), PortQueue(p)), SetQueue(n), For(s.queues[PortQueue(p)].messages, p), p);
    ChangedStep(Move(SetPort(s, p, s.ports[p].(pset := Some(n))), SetQueue(n), PortQueue(p), p), PortQueue(p),
      PortChanged);
  }

  lemma ApplyCore(s: State, e: Event)
    requires Core(s, 0, [])
    ensures Core(Apply(s, e), 0, [])
  {
    if Enabled(s, e) {
      match e {
        case SetAdd(p, n) => AddStep(s, p, n);
        case SetRemove(p) => MoveStep(s, p, None);
        case SetDestroy(n) =>
          DeactivateCore(s, n);
          ChangedStep(s.(activeSets := s.activeSets - {n}), SetQueue(n), PortDied);
        case SetQlimit(p, qlimit) => QlimitStep(s, p, qlimit);
        case Send(_, _, _, _) => ApplySend(s, e);
        case SendResume(_) => ApplySend(s, e);
        case SendTimeout(_) => ApplySend(s, e);
        case SendInterrupt(_) => ApplySend(s, e);
        case Receive(_, _, _, _, _) => ApplyReceive(s, e);
        case ReceiveResume(_) => ApplyReceive(s, e);
        case ReceiveTimeout(_) => ApplyReceive(s, e);
        case ReceiveInterrupt(_) => ApplyReceive(s, e);
        case ReceiveFinish(_) => ApplyReceive(s, e);
      }
    }
  }

  lemma DeactivateCore(s: State, n: nat)
    requires Core(s, 0, [])
    ensures Core(s.(activeSets := s.activeSets - {n}), 0, [])
  {
    var r := s.(activeSets := s.activeSets - {n});
    DeactivateListed(s, r);
    SamePlaces(s, r);
    DeactivateAccounts(s, r);
    AccountedBoth(s, r, 0, []);
  }

  lemma DeactivateListed(s: State, r: State)
    requires Listed(s) && r == s.(activeSets := r.activeSets)
    ensures Listed(r)
  {}

  lemma DeactivateAccounts(s: State, r: State)
    requires Shaped(s) && Shaped(r) && Accounted(s, 0, []) && r == s.(activeSets := r.activeSets)
    ensures SameAccounts(s, r)
  {
    forall p | p in s.ports
      ensures Queued(r, p) == Queued(s, p) && r.ports[p].qlimit <= r.ports[p].peak
    {
      assert Counted(s, p, TransitOf(p, 0, []));
    }
  }

  /** A woken receiver picks up its message, or its error. */
  lemma ResumeStep(s: State, t: nat)
    requires Core(s, 0, []) && t in s.threads && (s.threads[t].RcvHanded? || s.threads[t].RcvFailed?)
    ensures var th := s.threads[t];
      Core(if th.RcvHanded? then SetThread(s, t, RcvHolding(th.kmsg, th.seqno, th.ticket)) else Leave(s, t), 0, [])
  {
    if s.threads[t].RcvFailed? {
      LeaveStep(s, t);
    } else {
      var th := RcvHolding(s.threads[t].kmsg, s.threads[t].seqno, s.threads[t].ticket);
      SetListed(s, t, th);
      SamePlaces(s, SetThread(s, t, th));
      ResumeAccounts(s, t, th);
      AccountedBoth(s, SetThread(s, t, th), 0, []);
    }
  }

  lemma ResumeAccounts(s: State, t: nat, th: Thread)
    requires Shaped(s) && Accounted(s, 0, []) && t in s.threads && s.threads[t].RcvHanded?
    requires th == RcvHolding(s.threads[t].kmsg, s.threads[t].seqno, s.threads[t].ticket)
    ensures Shaped(SetThread(s, t, th)) && SameAccounts(s, SetThread(s, t, th))
  {
    var r := SetThread(s, t, th);
    assert forall p | p in s.ports :: Current(r, p) == Current(s, p);
    forall p | p in s.ports
      ensures Count(r.threads, p, Holds) == Count(s.threads, p, Holds)
      ensures Count(r.threads, p, HoldsUnforced) == Count(s.threads, p, HoldsUnforced)
      ensures r.ports[p].qlimit <= r.ports[p].peak
    {
      CountSet(s.threads, t, th, p, Holds);
      CountSet(s.threads, t, th, p, HoldsUnforced);
      assert Counted(s, p, TransitOf(p, 0, []));
    }
  }

  lemma ApplySendServed(s: State, e: Event)
    requires Shaped(s) && Served(s) && Enabled(s, e)
    requires e.Send? || e.SendResume? || e.SendTimeout? || e.SendInterrupt?
    ensures Served(Apply(s, e))
  {
    match e {
      case Send(t, k, timed, now) => SendServed(s, t, k, timed, now);
      case SendResume(t) => SendServed(s, t, s.threads[t].kmsg, s.threads[t].timed, false);
      case SendTimeout(t) =>
        var k := s.threads[t].kmsg;
        ServedStays(s, Unblock(s, t, k.dest));
        SendServed(Unblock(s, t, k.dest), t, k, true, true);
      case SendInterrupt(t) => ServedStays(s, Apply(s, e));
    }
  }

  lemma ApplyReceiveServed(s: State, e: Event)
    requires Shaped(s) && Served(s) && Enabled(s, e)
    requires e.Receive? || e.ReceiveResume? || e.ReceiveTimeout? || e.ReceiveInterrupt? || e.ReceiveFinish?
    ensures Served(Apply(s, e))
  {
    match e {
      case Receive(t, q, maxSize, timed, now) => ReceiveServed(s, t, q, maxSize, timed, now);
      case ReceiveResume(t) => ServedStays(s, Apply(s, e));
      case ReceiveTimeout(t) =>
        var th := s.threads[t];
        UnwaitServed(s, t, th.queue);
        ReceiveServed(Unwait(s, t, th.queue), t, th.queue, th.msize, true, true);
      case ReceiveInterrupt(t) => UnwaitServed(s, t, s.threads[t].queue);
      case ReceiveFinish(t) => ServedStays(s, Apply(s, e));
    }
  }

  lemma UnwaitServed(s: State, t: nat, q: QueueId)
    requires Shaped(s) && Served(s) && q in s.queues
    ensures Shaped(Unwait(s, t, q)) && Served(Unwait(s, t, q))
  {
    var r := Unwait(s, t, q);
    assert forall p | p in s.ports :: Current(r, p) == Current(s, p);
    assert forall q' | q' in s.queues :: r.queues[q'].messages == s.queues[q'].messages;
    ServedStays(s, r);
  }

  lemma ApplyServed(s: State, e: Event)
    requires Shaped(s) && Served(s)
    ensures Served(Apply(s, e))
  {
    if Enabled(s, e) {
      match e {
        case SetAdd(p, n) => AddServed(s, p, n);
        case SetRemove(p) => RemoveServed(s, p);
        case SetDestroy(n) =>
        case SetQlimit(p, qlimit) =>
          WakeSomeKeeps(s, p, ExtraRoom(s, p, qlimit));
          ServedStays(s, Apply(s, e));
        case Send(_, _, _, _) => ApplySendServed(s, e);
        case SendResume(_) => ApplySendServed(s, e);
        case SendTimeout(_) => ApplySendServed(s, e);
        case SendInterrupt(_) => ApplySendServed(s, e);
        case Receive(_, _, _, _, _) => ApplyReceiveServed(s, e);
        case ReceiveResume(_) => ApplyReceiveServed(s, e);
        case ReceiveTimeout(_) => ApplyReceiveServed(s, e);
        case ReceiveInterrupt(_) => ApplyReceiveServed(s, e);
        case ReceiveFinish(_) => ApplyReceiveServed(s, e);
      }
    }
  }

  /** Every event keeps the invariant. */
  lemma ApplyInv(s: State, e: Event)
    requires Inv(s)
    ensures Inv(Apply(s, e))
  {
    ApplyCore(s, e);
    ApplyServed(s, e);
  }
}
