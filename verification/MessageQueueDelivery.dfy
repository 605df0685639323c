/**
 Exactly-once delivery to threads: every message a port has given out is either with
 exactly one receiver, under the sequence number it was given, or its receive is over.
 */
module MessageQueueDelivery {

  import opened Options
  import opened MessageQueue
  import opened MessageQueueInvariant
  import opened MessageQueueSteps

  predicate Holder(s: State, t: nat, p: nat, ticket: nat) {
    t in s.threads && Holding(s.threads[t]) && s.threads[t].kmsg.dest == p && s.threads[t].ticket == ticket
  }

  /** A receiver has a message of the port's history that is not done, and its number. */
  ghost predicate HoldersTrue(s: State) {
    forall t | t in s.threads && Holding(s.threads[t]) ::
      var th := s.threads[t];
      && th.kmsg.dest in s.ports && th.ticket < |s.ports[th.kmsg.dest].taken|
      && s.ports[th.kmsg.dest].taken[th.ticket] == Taken(th.kmsg, th.seqno)
      && th.ticket !in s.ports[th.kmsg.dest].done
  }

  ghost predicate HoldersUnique(s: State) {
    forall t, t', p, i | Holder(s, t, p, i) && Holder(s, t', p, i) :: t == t'
  }

  ghost predicate NoneLost(s: State) {
    forall p, i: nat | p in s.ports && i < |s.ports[p].taken| ::
      i in s.ports[p].done || exists t :: Holder(s, t, p, i)
  }

  ghost predicate DoneTaken(s: State) {
    forall p, i | p in s.ports && i in s.ports[p].done :: i < |s.ports[p].taken|
  }

  ghost predicate Delivered(s: State) {
    HoldersTrue(s) && HoldersUnique(s) && NoneLost(s) && DoneTaken(s)
  }

  // ---------------------------------------------------------------- what leaves deliveries alone

  /** The histories and the receivers with a message are the same. */
  ghost predicate SameDeliveries(s: State, r: State) {
    && r.ports.Keys == s.ports.Keys
    && (forall p | p in s.ports :: r.ports[p].taken == s.ports[p].taken && r.ports[p].done == s.ports[p].done)
    && (forall t :: (t in r.threads && Holding(r.threads[t])) <==> (t in s.threads && Holding(s.threads[t])))
    && (forall t | t in s.threads && Holding(s.threads[t]) ::
          && t in r.threads && Holding(r.threads[t])
          && r.threads[t].kmsg == s.threads[t].kmsg && r.threads[t].seqno == s.threads[t].seqno
          && r.threads[t].ticket == s.threads[t].ticket)
  }

  lemma SameDelivered(s: State, r: State)
    requires SameDeliveries(s, r) && Delivered(s)
    ensures Delivered(r)
  {
    forall t, p, i ensures Holder(r, t, p, i) <==> Holder(s, t, p, i) {}
    forall p, i: nat | p in r.ports && i < |r.ports[p].taken|
      ensures i in r.ports[p].done || exists t :: Holder(r, t, p, i)
    {
      assert i in s.ports[p].done || exists t :: Holder(s, t, p, i);
    }
  }

  lemma SameTrans(a: State, b: State, c: State)
    requires SameDeliveries(a, b) && SameDeliveries(b, c)
    ensures SameDeliveries(a, c)
  {}

  /** One thread changes, and holds nothing before or after. */
  lemma SameStep(s: State, r: State, t: nat)
    requires r.ports.Keys == s.ports.Keys
    requires forall p | p in s.ports :: r.ports[p].taken == s.ports[p].taken && r.ports[p].done == s.ports[p].done
    requires r.threads == s.threads - {t}
      || (t in r.threads && r.threads == s.threads[t := r.threads[t]] && !Holding(r.threads[t]))
    requires t in s.threads ==> !Holding(s.threads[t])
    ensures SameDeliveries(s, r)
  {}

  // ---------------------------------------------------------------- giving a message out

  /** A free receiver gets the next message of the port. */
  lemma Gives(s: State, r: State, t: nat, k: Kmsg, th: Thread)
    requires Delivered(s) && k.dest in s.ports && (t in s.threads ==> !Holding(s.threads[t]))
    requires Holding(th) && th.kmsg == k && th.seqno == s.ports[k.dest].seqno && th.ticket == |s.ports[k.dest].taken|
    requires r.ports == s.ports[k.dest := TakeSeqno(s.ports[k.dest], k)] && r.threads == s.threads[t := th]
    ensures Delivered(r)
  {
    GivesTrue(s, r, t, k, th);
    GivesUnique(s, r, t, k, th);
    GivesNoneLost(s, r, t, k, th);
  }

  lemma GivesTrue(s: State, r: State, t: nat, k: Kmsg, th: Thread)
    requires HoldersTrue(s) && DoneTaken(s) && k.dest in s.ports
    requires Holding(th) && th.kmsg == k && th.seqno == s.ports[k.dest].seqno && th.ticket == |s.ports[k.dest].taken|
    requires r.ports == s.ports[k.dest := TakeSeqno(s.ports[k.dest], k)] && r.threads == s.threads[t := th]
    ensures HoldersTrue(r) && DoneTaken(r)
  {}

  lemma GivesUnique(s: State, r: State, t: nat, k: Kmsg, th: Thread)
    requires HoldersTrue(s) && HoldersUnique(s) && k.dest in s.ports
    requires Holding(th) && th.kmsg == k && th.ticket == |s.ports[k.dest].taken| && r.threads == s.threads[t := th]
    ensures HoldersUnique(r)
  {
    forall t1, t2, p, i | Holder(r, t1, p, i) && Holder(r, t2, p, i)
      ensures t1 == t2
    {
      if t1 != t && t2 != t {
        assert Holder(s, t1, p, i) && Holder(s, t2, p, i);
      }
    }
  }

  lemma GivesNoneLost(s: State, r: State, t: nat, k: Kmsg, th: Thread)
    requires NoneLost(s) && k.dest in s.ports && (t in s.threads ==> !Holding(s.threads[t]))
    requires Holding(th) && th.kmsg == k && th.ticket == |s.ports[k.dest].taken|
    requires r.ports == s.ports[k.dest := TakeSeqno(s.ports[k.dest], k)] && r.threads == s.threads[t := th]
    ensures NoneLost(r)
  {
    forall p, i: nat | p in r.ports && i < |r.ports[p].taken|
      ensures i in r.ports[p].done || exists t' :: Holder(r, t', p, i)
    {
      if i < |s.ports[p].taken| {
        if i !in s.ports[p].done {
          var t' :| Holder(s, t', p, i);
          assert Holder(r, t', p, i);
        }
      } else {
        assert Holder(r, t, p, i);
      }
    }
  }

  lemma QuietDelivers(s: State, r: State, t: nat)
    requires Delivered(s) && r.ports.Keys == s.ports.Keys
    requires forall p | p in s.ports :: r.ports[p].taken == s.ports[p].taken && r.ports[p].done == s.ports[p].done
    requires r.threads == s.threads - {t}
      || (t in r.threads && r.threads == s.threads[t := r.threads[t]] && !Holding(r.threads[t]))
    requires t in s.threads ==> !Holding(s.threads[t])
    ensures Delivered(r)
  {
    SameStep(s, r, t);
    SameDelivered(s, r);
  }

  lemma EnqueueDelivers(s: State, q: QueueId, k: Kmsg)
    requires Delivered(s) && q in s.queues
    ensures Delivered(Enqueue(s, q, k))
  {
    SameDelivered(s, Enqueue(s, q, k));
  }

  lemma HandoffDelivers(s: State, q: QueueId, k: Kmsg)
    requires Delivered(s) && q in s.queues && s.queues[q].threads != [] && k.dest in s.ports
    requires s.queues[q].threads[0] in s.threads && s.threads[s.queues[q].threads[0]].RcvBlocked?
    ensures Delivered(Handoff(PopThread(s, q), s.queues[q].threads[0], k))
  {
    var port := s.ports[k.dest];
    Gives(s, Handoff(PopThread(s, q), s.queues[q].threads[0], k), s.queues[q].threads[0], k,
          RcvHanded(k, port.seqno, |port.taken|));
  }

  lemma PopDelivers(s: State, q: QueueId, error: RcvError)
    requires Delivered(s) && q in s.queues && s.queues[q].threads != []
    requires s.queues[q].threads[0] in s.threads && s.threads[s.queues[q].threads[0]].RcvBlocked?
    ensures Delivered(SetThread(PopThread(s, q), s.queues[q].threads[0], RcvFailed(error)))
  {
    QuietDelivers(s, SetThread(PopThread(s, q), s.queues[q].threads[0], RcvFailed(error)), s.queues[q].threads[0]);
  }

  lemma OfferDelivers(s: State, p: nat, k: Kmsg, rest: seq<Kmsg>)
    requires Core(s, p, [k] + rest) && p in s.ports && k.dest == p && Delivered(s)
    ensures Delivered(Offer(s, Current(s, p), k))
    decreases |s.queues[Current(s, p)].threads|
  {
    var q := Current(s, p);
    var ts := s.queues[q].threads;
    if ts == [] {
      EnqueueDelivers(s, q, k);
    } else {
      FirstWaits(s, q);
      if k.size <= Msize(s, ts[0]) {
        HandoffDelivers(s, q, k);
      } else {
        PopDelivers(s, q, TooLarge(k.size));
        RejectCore(s, p, k, [k] + rest);
        OfferDelivers(SetThread(PopThread(s, q), ts[0], RcvFailed(TooLarge(k.size))), p, k, rest);
      }
    }
  }

  lemma OfferAllDelivers(s: State, p: nat, ks: seq<Kmsg>)
    requires Core(s, p, ks) && p in s.ports && Delivered(s)
    requires forall k <- ks :: k.dest == p
    ensures Delivered(OfferAll(s, Current(s, p), ks, p))
    decreases |ks|
  {
    if ks != [] {
      assert ks == [ks[0]] + ks[1..];
      OfferDelivers(s, p, ks[0], ks[1..]);
      OfferCore(s, p, ks[0], ks[1..]);
      OfferKeeps(s, Current(s, p), ks[0]);
      OfferAllDelivers(Offer(s, Current(s, p), ks[0]), p, ks[1..]);
    }
  }

  lemma MoveDelivers(s: State, p: nat, pset: Option<nat>)
    requires Core(s, 0, []) && p in s.ports && Delivered(s)
    requires Home(p, pset) in s.queues && Home(p, pset) != Current(s, p)
    ensures Delivered(Move(SetPort(s, p, s.ports[p].(pset := pset)), Home(p, pset), Current(s, p), p))
  {
    SameDelivered(s, Unlinked(s, p, pset, Current(s, p)));
    UnlinkCore(s, p, pset);
    OfferAllDelivers(Unlinked(s, p, pset, Current(s, p)), p, For(s.queues[Current(s, p)].messages, p));
  }

  lemma ChangedSame(s: State, q: QueueId, error: RcvError)
    requires Core(s, 0, []) && q in s.queues
    ensures SameDeliveries(s, Changed(s, q, error))
    decreases |s.queues[q].threads|
  {
    ChangedUnfold(s, q, error);
    var ts := s.queues[q].threads;
    if ts != [] {
      var s1 := SetThread(PopThread(s, q), ts[0], RcvFailed(error));
      FirstWaits(s, q);
      PopStep(s, q, error);
      SameStep(s, s1, ts[0]);
      ChangedSame(s1, q, error);
      SameTrans(s, s1, Changed(s1, q, error));
    }
  }

  lemma WakeSenderSame(s: State, p: nat)
    requires Listed(s) && p in s.ports && s.ports[p].blocked != []
    ensures SameDeliveries(s, WakeSender(s, p))
  {
    WakeSenderListed(s, p);
    SameStep(s, WakeSender(s, p), s.ports[p].blocked[0]);
  }

  lemma WakeSomeSame(s: State, p: nat, n: nat)
    requires Core(s, 0, []) && p in s.ports
    ensures SameDeliveries(s, WakeSome(s, p, n))
    decreases n
  {
    if n != 0 && s.ports[p].blocked != [] {
      WakeSenderStep(s, p);
      WakeSenderSame(s, p);
      WakeSomeSame(WakeSender(s, p), p, n - 1);
      SameTrans(s, WakeSender(s, p), WakeSome(WakeSender(s, p), p, n - 1));
    }
  }

  // ---------------------------------------------------------------- events

  lemma CountOutDelivers(s: State, t: nat, p: nat)
    requires Delivered(s) && p in s.ports && t in s.threads && s.threads[t].RcvHolding? && s.threads[t].kmsg.dest == p
    ensures Delivered(CountedOut(s, t, p))
  {
    var r := CountedOut(s, t, p);
    forall t', p', i ensures Holder(r, t', p', i) <==> Holder(s, t', p', i) && t' != t {}
    assert Holder(s, t, p, s.threads[t].ticket);
    CountOutTrue(s, t, p);
    forall p', i: nat | p' in r.ports && i < |r.ports[p'].taken|
      ensures i in r.ports[p'].done || exists t' :: Holder(r, t', p', i)
    {
      if i !in r.ports[p'].done {
        var t' :| Holder(s, t', p', i);
        assert Holder(r, t', p', i);
      }
    }
  }

  lemma CountOutTrue(s: State, t: nat, p: nat)
    requires HoldersTrue(s) && HoldersUnique(s) && p in s.ports
    requires t in s.threads && s.threads[t].RcvHolding? && s.threads[t].kmsg.dest == p
    ensures HoldersTrue(CountedOut(s, t, p))
  {
    var r := CountedOut(s, t, p);
    assert Holder(s, t, p, s.threads[t].ticket);
    forall t' | t' in r.threads && Holding(r.threads[t']) && r.threads[t'].kmsg.dest == p
      ensures r.threads[t'].ticket != s.threads[t].ticket
    {
      assert Holder(s, t', p, s.threads[t'].ticket);
    }
  }

  lemma WakeDelivers(s: State, p: nat)
    requires Listed(s) && p in s.ports && s.ports[p].blocked != [] && Delivered(s)
    ensures Delivered(WakeSender(s, p))
  {
    WakeSenderSame(s, p);
    SameDelivered(s, WakeSender(s, p));
  }

  lemma FinishDelivers(s: State, t: nat, p: nat)
    requires Structured(s) && Delivered(s)
    requires p in s.ports && t in s.threads && s.threads[t].RcvHolding? && s.threads[t].kmsg.dest == p
    ensures Delivered(Finish(s, t, p))
  {
    CountOutDelivers(s, t, p);
    if s.ports[p].blocked != [] && s.ports[p].msgcount - 1 < s.ports[p].qlimit {
      CountOutStructure(s, t, p);
      WakeDelivers(CountedOut(s, t, p), p);
    }
  }

  lemma LeaveDelivers(s: State, t: nat)
    requires Delivered(s) && (t in s.threads ==> !Holding(s.threads[t]))
    ensures Delivered(Leave(s, t))
  {
    QuietDelivers(s, Leave(s, t), t);
  }

  lemma BlockDelivers(s: State, t: nat, k: Kmsg, timed: bool)
    requires Delivered(s) && (t in s.threads ==> !Holding(s.threads[t])) && k.dest in s.ports
    ensures Delivered(Block(s, t, k, timed))
  {
    QuietDelivers(s, Block(s, t, k, timed), t);
  }

  lemma UnblockDelivers(s: State, t: nat, p: nat)
    requires Delivered(s) && t in s.threads && s.threads[t].SendBlocked? && p in s.ports
    ensures Delivered(Unblock(s, t, p))
  {
    QuietDelivers(s, Unblock(s, t, p), t);
  }

  lemma UnwaitDelivers(s: State, t: nat, q: QueueId)
    requires Delivered(s) && t in s.threads && s.threads[t].RcvBlocked? && q in s.queues
    ensures Delivered(Unwait(s, t, q))
  {
    QuietDelivers(s, Unwait(s, t, q), t);
  }

  lemma WaitDelivers(s: State, t: nat, q: QueueId, maxSize: nat, timed: bool)
    requires Delivered(s) && t !in s.threads && q in s.queues
    ensures Delivered(Wait(s, t, q, maxSize, timed))
  {
    QuietDelivers(s, Wait(s, t, q, maxSize, timed), t);
  }

  lemma CountInDelivers(s: State, k: Kmsg)
    requires Delivered(s) && k.dest in s.ports
    ensures Delivered(CountedIn(s, k))
  {
    SameDelivered(s, CountedIn(s, k));
  }

  lemma TakeDelivers(s: State, t: nat, q: QueueId)
    requires Delivered(s) && t !in s.threads
    requires q in s.queues && s.queues[q].messages != [] && s.queues[q].messages[0].dest in s.ports
    ensures Delivered(Take(s, t, q))
  {
    var k := s.queues[q].messages[0];
    Gives(s, Take(s, t, q), t, k, RcvHolding(k, s.ports[k.dest].seqno, |s.ports[k.dest].taken|));
  }

  lemma AcceptDelivers(s: State, t: nat, k: Kmsg)
    requires Core(s, 0, []) && Free(s, t) && (t in s.threads ==> !Holding(s.threads[t])) && k.dest in s.ports
    requires HasRoom(s, k) && Delivered(s)
    ensures Delivered(Accept(s, t, k))
  {
    LeaveDelivers(s, t);
    if !k.circular {
      CountInDelivers(Leave(s, t), k);
      LeaveStep(s, t);
      OfferedDelivers(Leave(s, t), k);
    }
  }

  lemma OfferedDelivers(s: State, k: Kmsg)
    requires Core(s, 0, []) && k.dest in s.ports && HasRoom(s, k) && Delivered(CountedIn(s, k))
    ensures Delivered(Offer(CountedIn(s, k), Current(s, k.dest), k))
  {
    CountIn(s, k);
    assert [k] + [] == [k];
    OfferDelivers(CountedIn(s, k), k.dest, k, []);
  }

  lemma TrySendDelivers(s: State, t: nat, k: Kmsg, timed: bool, now: bool)
    requires Core(s, 0, []) && Free(s, t) && (t in s.threads ==> !Holding(s.threads[t])) && k.dest in s.ports
    requires Delivered(s)
    ensures Delivered(TrySend(s, t, k, timed, now))
  {
    if HasRoom(s, k) {
      AcceptDelivers(s, t, k);
    } else if timed && now {
      LeaveDelivers(s, t);
    } else {
      BlockDelivers(s, t, k, timed);
    }
  }

  lemma TryReceiveDelivers(s: State, t: nat, q: QueueId, maxSize: nat, timed: bool, now: bool)
    requires Shaped(s) && t !in s.threads && q in s.queues && Delivered(s)
    ensures Delivered(TryReceive(s, t, q, maxSize, timed, now))
  {
    if s.queues[q].messages != [] && s.queues[q].messages[0].size <= maxSize {
      TakeDelivers(s, t, q);
    } else if s.queues[q].messages != [] || (timed && now) {
      LeaveDelivers(s, t);
    } else {
      WaitDelivers(s, t, q, maxSize, timed);
    }
  }

  lemma SendTimeoutDelivers(s: State, t: nat)
    requires Core(s, 0, []) && Delivered(s) && t in s.threads && s.threads[t].SendBlocked?
    requires s.threads[t].kmsg.dest in s.ports
    ensures var k := s.threads[t].kmsg;
      Current(Unblock(s, t, k.dest), k.dest) in s.queues && Delivered(TrySend(Unblock(s, t, k.dest), t, k, true, true))
  {
    UnblockStep(s, t);
    UnblockDelivers(s, t, s.threads[t].kmsg.dest);
    TrySendDelivers(Unblock(s, t, s.threads[t].kmsg.dest), t, s.threads[t].kmsg, true, true);
  }

  lemma ReceiveTimeoutDelivers(s: State, t: nat)
    requires Core(s, 0, []) && Delivered(s) && t in s.threads && s.threads[t].RcvBlocked?
      && s.threads[t].queue in s.queues
    ensures var th := s.threads[t];
      && (forall k <- Unwait(s, t, th.queue).queues[th.queue].messages :: k.dest in s.ports)
      && Delivered(TryReceive(Unwait(s, t, th.queue), t, th.queue, th.msize, true, true))
  {
    UnwaitStep(s, t);
    UnwaitDelivers(s, t, s.threads[t].queue);
    TryReceiveDelivers(Unwait(s, t, s.threads[t].queue), t, s.threads[t].queue, s.threads[t].msize, true, true);
  }

  lemma ResumeDelivers(s: State, t: nat)
    requires Delivered(s) && t in s.threads && (s.threads[t].RcvHanded? || s.threads[t].RcvFailed?)
    ensures var th := s.threads[t];
      Delivered(if th.RcvHanded? then SetThread(s, t, RcvHolding(th.kmsg, th.seqno, th.ticket)) else Leave(s, t))
  {
    if s.threads[t].RcvHanded? {
      SameDelivered(s, SetThread(s, t, RcvHolding(s.threads[t].kmsg, s.threads[t].seqno, s.threads[t].ticket)));
    } else {
      LeaveDelivers(s, t);
    }
  }

  lemma ChangedDelivers(s: State, q: QueueId, error: RcvError)
    requires Core(s, 0, []) && q in s.queues && Delivered(s)
    ensures Delivered(Changed(s, q, error))
  {
    ChangedSame(s, q, error);
    SameDelivered(s, Changed(s, q, error));
  }

  lemma AddDelivers(s: State, p: nat, n: nat)
    requires Core(s, 0, []) && Delivered(s) && p in s.ports && s.ports[p].pset.None? && SetQueue(n) in s.queues
    ensures Delivered(AddToSet(s, p, n))
  {
    var s2 := Move(SetPort(s, p, s.ports[p].(pset := Some(n))), SetQueue(n), PortQueue(p), p);
    MoveStep(s, p, Some(n));
    MoveDelivers(s, p, Some(n));
    OfferAllKeeps(Unlinked(s, p, Some(n), PortQueue(p)), SetQueue(n), For(s.queues[PortQueue(p)].messages, p), p);
    ChangedDelivers(s2, PortQueue(p), PortChanged);
  }

  lemma DestroyDelivers(s: State, n: nat)
    requires Core(s, 0, []) && Delivered(s) && SetQueue(n) in s.queues
    ensures Delivered(Changed(s.(activeSets := s.activeSets - {n}), SetQueue(n), PortDied))
  {
    SameDelivered(s, s.(activeSets := s.activeSets - {n}));
    DeactivateCore(s, n);
    ChangedDelivers(s.(activeSets := s.activeSets - {n}), SetQueue(n), PortDied);
  }

  lemma LimitDelivers(s: State, p: nat, qlimit: nat)
    requires Delivered(s) && p in s.ports
    ensures Delivered(Limited(s, p, qlimit))
  {
    SameDelivered(s, Limited(s, p, qlimit));
  }

  lemma QlimitDelivers(s: State, p: nat, qlimit: nat)
    requires Core(s, 0, []) && Delivered(s) && p in s.ports
    ensures Delivered(ChangeQlimit(s, p, qlimit))
  {
    WakeSomeSame(s, p, ExtraRoom(s, p, qlimit));
    SameDelivered(s, WakeSome(s, p, ExtraRoom(s, p, qlimit)));
    LimitDelivers(WakeSome(s, p, ExtraRoom(s, p, qlimit)), p, qlimit);
  }

  lemma ApplySendDelivers(s: State, e: Event)
    requires Core(s, 0, []) && Delivered(s) && Enabled(s, e)
    requires e.Send? || e.SendResume? || e.SendTimeout? || e.SendInterrupt?
    ensures Delivered(Apply(s, e))
  {
    match e {
      case Send(t, k, timed, now) => TrySendDelivers(s, t, k, timed, now);
      case SendResume(t) => TrySendDelivers(s, t, s.threads[t].kmsg, s.threads[t].timed, false);
      case SendTimeout(t) => SendTimeoutDelivers(s, t);
      case SendInterrupt(t) => UnblockDelivers(s, t, s.threads[t].kmsg.dest);
    }
  }

  lemma ApplyReceiveDelivers(s: State, e: Event)
    requires Core(s, 0, []) && Delivered(s) && Enabled(s, e)
    requires e.Receive? || e.ReceiveResume? || e.ReceiveTimeout? || e.ReceiveInterrupt? || e.ReceiveFinish?
    ensures Delivered(Apply(s, e))
  {
    match e {
      case Receive(t, q, maxSize, timed, now) => TryReceiveDelivers(s, t, q, maxSize, timed, now);
      case ReceiveResume(t) => ResumeDelivers(s, t);
      case ReceiveTimeout(t) => ReceiveTimeoutDelivers(s, t);
      case ReceiveInterrupt(t) => UnwaitDelivers(s, t, s.threads[t].queue);
      case ReceiveFinish(t) => FinishDelivers(s, t, s.threads[t].kmsg.dest);
    }
  }

  lemma ApplySetDelivers(s: State, e: Event)
    requires Core(s, 0, []) && Delivered(s) && Enabled(s, e)
    requires e.SetAdd? || e.SetRemove? || e.SetDestroy? || e.SetQlimit?
    ensures Delivered(Apply(s, e))
  {
    match e {
      case SetAdd(p, n) => AddDelivers(s, p, n);
      case SetRemove(p) => MoveDelivers(s, p, None);
      case SetDestroy(n) => DestroyDelivers(s, n);
      case SetQlimit(p, qlimit) => QlimitDelivers(s, p, qlimit);
    }
  }

  /** Every event keeps exactly-once delivery. */
  lemma ApplyDelivers(s: State, e: Event)
    requires Core(s, 0, []) && Delivered(s)
    ensures Delivered(Apply(s, e))
  {
    if Enabled(s, e) {
      if e.Send? || e.SendResume? || e.SendTimeout? || e.SendInterrupt? {
        ApplySendDelivers(s, e);
      } else if e.SetAdd? || e.SetRemove? || e.SetDestroy? || e.SetQlimit? {
        ApplySetDelivers(s, e);
      } else {
        ApplyReceiveDelivers(s, e);
      }
    }
  }
}
