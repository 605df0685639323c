/**
 No lost sender wake-up.

 While senders sit on a port's blocked list, the port is covered: the messages counted
 against the limit, plus the woken senders that have not run yet, reach the limit.  So
 whenever there is room for a blocked sender, somebody is already on the way to use it.
 */
module MessageQueueWakeups {

  import opened Options
  import opened MessageQueue
  import opened MessageQueueInvariant
  import opened MessageQueueSteps

  ghost predicate Covered(s: State, p: nat)
    requires p in s.ports
  {
    s.ports[p].blocked != [] ==> s.ports[p].msgcount + Count(s.threads, p, Woken) >= s.ports[p].qlimit
  }

  ghost predicate AllCovered(s: State) {
    forall p | p in s.ports :: Covered(s, p)
  }

  /** Nothing that `Covered` looks at has changed. */
  ghost predicate SameSenders(s: State, r: State) {
    && r.ports.Keys == s.ports.Keys
    && (forall p | p in s.ports ::
          && r.ports[p].blocked == s.ports[p].blocked && r.ports[p].msgcount == s.ports[p].msgcount
          && r.ports[p].qlimit == s.ports[p].qlimit
          && Count(r.threads, p, Woken) == Count(s.threads, p, Woken))
  }

  lemma SameSendersTrans(a: State, b: State, c: State)
    requires SameSenders(a, b) && SameSenders(b, c)
    ensures SameSenders(a, c)
  {}

  lemma SameSendersCovered(s: State, r: State)
    requires SameSenders(s, r)
    ensures AllCovered(s) <==> AllCovered(r)
  {
    forall p | p in s.ports
      ensures Covered(s, p) <==> Covered(r, p)
    {}
  }

  /** A thread that is woken neither before nor after. */
  lemma OtherThread(threads: map<nat, Thread>, threads': map<nat, Thread>, t: nat, p: nat)
    requires threads' == threads - {t}
      || (t in threads' && threads' == threads[t := threads'[t]] && !threads'[t].SendWoken?)
    requires t in threads ==> !threads[t].SendWoken?
    ensures Count(threads', p, Woken) == Count(threads, p, Woken)
  {
    if threads' == threads - {t} {
      CountLeave(threads, t, p, Woken);
    } else {
      CountSet(threads, t, threads'[t], p, Woken);
    }
  }

  lemma OtherStep(s: State, r: State, t: nat)
    requires r.ports.Keys == s.ports.Keys
    requires forall p | p in s.ports ::
               && r.ports[p].blocked == s.ports[p].blocked && r.ports[p].msgcount == s.ports[p].msgcount
               && r.ports[p].qlimit == s.ports[p].qlimit
    requires r.threads == s.threads - {t}
      || (t in r.threads && r.threads == s.threads[t := r.threads[t]] && !r.threads[t].SendWoken?)
    requires t in s.threads ==> !s.threads[t].SendWoken?
    ensures SameSenders(s, r)
  {
    forall p | p in s.ports
      ensures Count(r.threads, p, Woken) == Count(s.threads, p, Woken)
    {
      OtherThread(s.threads, r.threads, t, p);
    }
  }

  /** The first receiver is turned away with the message's size. */
  function Rejected(s: State, q: QueueId, k: Kmsg): State
    requires q in s.queues && s.queues[q].threads != []
  {
    SetThread(PopThread(s, q), s.queues[q].threads[0], RcvFailed(TooLarge(k.size)))
  }

  lemma RejectSenders(s: State, q: QueueId, k: Kmsg)
    requires ReceiversListed(s) && q in s.queues && s.queues[q].threads != []
    ensures SameSenders(s, Rejected(s, q, k))
  {
    FirstWaits(s, q);
    OtherStep(s, Rejected(s, q, k), s.queues[q].threads[0]);
  }

  lemma OfferSenders(s: State, p: nat, k: Kmsg, rest: seq<Kmsg>)
    requires Core(s, p, [k] + rest) && p in s.ports && k.dest == p
    ensures SameSenders(s, Offer(s, Current(s, p), k))
    decreases |s.queues[Current(s, p)].threads|
  {
    var q := Current(s, p);
    var ts := s.queues[q].threads;
    if ts != [] {
      FirstWaits(s, q);
      if k.size <= Msize(s, ts[0]) {
        OtherStep(s, Offer(s, q, k), ts[0]);
      } else {
        var s1 := Rejected(s, q, k);
        RejectCore(s, p, k, [k] + rest);
        RejectSenders(s, q, k);
        OfferSenders(s1, p, k, rest);
        SameSendersTrans(s, s1, Offer(s1, q, k));
      }
    }
  }

  lemma OfferAllSenders(s: State, p: nat, ks: seq<Kmsg>)
    requires Core(s, p, ks) && p in s.ports
    requires forall k <- ks :: k.dest == p
    ensures SameSenders(s, OfferAll(s, Current(s, p), ks, p))
    decreases |ks|
  {
    if ks != [] {
      var q := Current(s, p);
      var s1 := Offer(s, q, ks[0]);
      assert ks == [ks[0]] + ks[1..];
      OfferSenders(s, p, ks[0], ks[1..]);
      OfferCore(s, p, ks[0], ks[1..]);
      OfferKeeps(s, q, ks[0]);
      OfferAllSenders(s1, p, ks[1..]);
      SameSendersTrans(s, s1, OfferAll(s1, q, ks[1..], p));
    }
  }

  lemma UnlinkSenders(s: State, p: nat, pset: Option<nat>)
    requires p in s.ports && Current(s, p) in s.queues
    ensures SameSenders(s, Unlinked(s, p, pset, Current(s, p)))
  {}

  lemma MoveSenders(s: State, p: nat, pset: Option<nat>)
    requires Core(s, 0, []) && p in s.ports
    requires Home(p, pset) in s.queues && Home(p, pset) != Current(s, p)
    ensures SameSenders(s, Move(SetPort(s, p, s.ports[p].(pset := pset)), Home(p, pset), Current(s, p), p))
  {
    var s1 := Unlinked(s, p, pset, Current(s, p));
    UnlinkSenders(s, p, pset);
    UnlinkCore(s, p, pset);
    OfferAllSenders(s1, p, For(s.queues[Current(s, p)].messages, p));
    SameSendersTrans(s, s1, OfferAll(s1, Home(p, pset), For(s.queues[Current(s, p)].messages, p), p));
  }

  lemma ChangedSenders(s: State, q: QueueId, error: RcvError)
    requires Core(s, 0, []) && q in s.queues
    ensures SameSenders(s, Changed(s, q, error))
    decreases |s.queues[q].threads|
  {
    ChangedUnfold(s, q, error);
    var ts := s.queues[q].threads;
    if ts != [] {
      var s1 := SetThread(PopThread(s, q), ts[0], RcvFailed(error));
      FirstWaits(s, q);
      PopStep(s, q, error);
      OtherStep(s, s1, ts[0]);
      ChangedSenders(s1, q, error);
      SameSendersTrans(s, s1, Changed(s1, q, error));
    }
  }

  lemma AddSenders(s: State, p: nat, n: nat)
    requires Core(s, 0, []) && p in s.ports && s.ports[p].pset.None? && SetQueue(n) in s.queues
    ensures SameSenders(s, AddToSet(s, p, n))
  {
    var s2 := Move(SetPort(s, p, s.ports[p].(pset := Some(n))), SetQueue(n), PortQueue(p), p);
    MoveStep(s, p, Some(n));
    MoveSenders(s, p, Some(n));
    OfferAllKeeps(Unlinked(s, p, Some(n), PortQueue(p)), SetQueue(n), For(s.queues[PortQueue(p)].messages, p), p);
    ChangedSenders(s2, PortQueue(p), PortChanged);
    SameSendersTrans(s, s2, Changed(s2, PortQueue(p), PortChanged));
  }

  // ---------------------------------------------------------------- waking and sending

  lemma WakeSenderCount(s: State, p: nat, p': nat)
    requires Listed(s) && p in s.ports && s.ports[p].blocked != []
    ensures Count(WakeSender(s, p).threads, p', Woken) == Count(s.threads, p', Woken) + One(p' == p)
  {
    WakeSenderListed(s, p);
    var t := s.ports[p].blocked[0];
    CountSet(s.threads, t, SendWoken(s.threads[t].kmsg, s.threads[t].timed), p', Woken);
  }

  /** The second half of a receive frees a slot and sends one blocked sender for it. */
  lemma FinishCovered(s: State, t: nat)
    requires Core(s, 0, []) && t in s.threads && s.threads[t].RcvHolding? && s.threads[t].kmsg.dest in s.ports
    requires AllCovered(s)
    ensures AllCovered(Finish(s, t, s.threads[t].kmsg.dest))
  {
    var p := s.threads[t].kmsg.dest;
    CountOutStructure(s, t, p);
    forall p' | p' in s.ports
      ensures Covered(Finish(s, t, p), p')
    {
      FinishPort(s, t, p, p');
    }
  }

  lemma FinishPort(s: State, t: nat, p: nat, p': nat)
    requires t in s.threads && s.threads[t].RcvHolding? && p in s.ports && p' in s.ports
    requires Listed(CountedOut(s, t, p)) && Covered(s, p')
    ensures Covered(Finish(s, t, p), p')
  {
    var s1 := CountedOut(s, t, p);
    OtherThread(s.threads, s1.threads, t, p');
    if s.ports[p].blocked != [] && s.ports[p].msgcount - 1 < s.ports[p].qlimit {
      WakeSenderCount(s1, p, p');
    }
  }

  lemma WakeSomeCount(s: State, p: nat, n: nat, p': nat)
    requires Core(s, 0, []) && p in s.ports
    ensures var r := WakeSome(s, p, n);
      && Count(r.threads, p', Woken) >= Count(s.threads, p', Woken)
      && (r.ports[p].blocked != [] ==> Count(r.threads, p, Woken) == Count(s.threads, p, Woken) + n)
    decreases n
  {
    if n != 0 && s.ports[p].blocked != [] {
      WakeSenderStep(s, p);
      WakeSenderCount(s, p, p);
      WakeSenderCount(s, p, p');
      WakeSomeCount(WakeSender(s, p), p, n - 1, p');
    }
  }

  lemma WakeSomeBlocked(s: State, p: nat, n: nat)
    requires p in s.ports && s.ports[p].blocked == []
    ensures WakeSome(s, p, n) == s
  {}

  lemma QlimitCovered(s: State, p: nat, qlimit: nat)
    requires Core(s, 0, []) && p in s.ports && AllCovered(s)
    ensures AllCovered(ChangeQlimit(s, p, qlimit))
  {
    var n := ExtraRoom(s, p, qlimit);
    WakeSomeKeeps(s, p, n);
    if s.ports[p].blocked == [] {
      WakeSomeBlocked(s, p, n);
    }
    forall p' | p' in s.ports
      ensures Covered(ChangeQlimit(s, p, qlimit), p')
    {
      assert Covered(s, p');
      WakeSomeCount(s, p, n, p');
    }
  }

  /** Delivery of a message that is not circular: the woken sender becomes a message. */
  lemma AcceptCovered(s: State, t: nat, k: Kmsg)
    requires Core(s, 0, []) && Free(s, t) && (t in s.threads ==> !Holding(s.threads[t]))
    requires t in s.threads && s.threads[t].SendWoken? ==> s.threads[t].kmsg == k
    requires k.dest in s.ports && HasRoom(s, k) && !k.circular && AllCovered(s)
    ensures AllCovered(Accept(s, t, k))
  {
    var s1 := CountedIn(Leave(s, t), k);
    forall p | p in s.ports
      ensures Covered(s1, p)
    {
      assert Covered(s, p);
      CountLeave(s.threads, t, p, Woken);
    }
    LeaveStep(s, t);
    CountIn(Leave(s, t), k);
    assert [k] + [] == [k];
    OfferSenders(s1, k.dest, k, []);
    SameSendersCovered(s1, Accept(s, t, k));
  }

  lemma BlockCovered(s: State, t: nat, k: Kmsg, timed: bool)
    requires k.dest in s.ports && !HasRoom(s, k) && AllCovered(s)
    requires t in s.threads && s.threads[t].SendWoken? ==> s.threads[t].kmsg == k
    ensures AllCovered(Block(s, t, k, timed))
  {
    forall p | p in s.ports
      ensures Covered(Block(s, t, k, timed), p)
    {
      assert Covered(s, p);
      CountSet(s.threads, t, SendBlocked(k, timed), p, Woken);
    }
  }

  lemma UnblockCovered(s: State, t: nat, p: nat)
    requires p in s.ports && t in s.threads && s.threads[t].SendBlocked? && AllCovered(s)
    ensures AllCovered(Unblock(s, t, p))
  {
    forall p' | p' in s.ports
      ensures Covered(Unblock(s, t, p), p')
    {
      assert Covered(s, p');
      CountLeave(s.threads, t, p', Woken);
    }
  }

  lemma LeaveCovered(s: State, t: nat)
    requires AllCovered(s) && (t in s.threads ==> !s.threads[t].SendWoken?)
    ensures AllCovered(Leave(s, t))
  {
    OtherStep(s, Leave(s, t), t);
    SameSendersCovered(s, Leave(s, t));
  }

  /** One turn of the send loop by a thread that is new, or woken for this very message. */
  lemma TrySendCovered(s: State, t: nat, k: Kmsg, timed: bool, now: bool)
    requires Core(s, 0, []) && (t in s.threads ==> s.threads[t] == SendWoken(k, timed) && !now && !k.circular)
    requires k.dest in s.ports && AllCovered(s)
    ensures AllCovered(TrySend(s, t, k, timed, now))
  {
    if HasRoom(s, k) {
      if k.circular {
        LeaveCovered(s, t);
      } else {
        AcceptCovered(s, t, k);
      }
    } else if timed && now {
      LeaveCovered(s, t);
    } else {
      BlockCovered(s, t, k, timed);
    }
  }
}
