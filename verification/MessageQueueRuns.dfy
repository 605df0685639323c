/** Theorems over every run of the message queues. */
module MessageQueueRuns {

  import opened Options
  import opened MessageQueue
  import opened MessageQueueInvariant
  import opened MessageQueueSteps
  import opened MessageQueueWakeups
  import opened MessageQueueDelivery

  /** Ports, queues and sets as they are created: nobody waits and nothing is queued. */
  ghost predicate Start(s: State) {
    && s.threads == map[]
    && (forall p | p in s.ports ::
          && PortQueue(p) in s.queues
          && (s.ports[p].pset.Some? ==> SetQueue(s.ports[p].pset.value) in s.queues)
          && s.ports[p] == Port(0, s.ports[p].qlimit, s.ports[p].qlimit, 0, [], s.ports[p].pset, [], [], {}))
    && (forall q | q in s.queues :: s.queues[q] == Mqueue([], []))
  }

  /** The whole invariant, as one predicate for runs. */
  ghost predicate Good(s: State) {
    Inv(s) && Delivered(s)
  }

  /** One event; a state without the queues its ports need stays as it is. */
  ghost function Step(s: State, e: Event): State {
    if Shaped(s) then Apply(s, e) else s
  }

  ghost function Run(s: State, es: seq<Event>): State
    decreases |es|
  {
    if es == [] then s else Run(Step(s, es[0]), es[1..])
  }

  lemma StepGood(s: State, e: Event)
    requires Good(s)
    ensures Good(Step(s, e))
  {
    ApplyInv(s, e);
    ApplyDelivers(s, e);
  }

  lemma RunGood(s: State, es: seq<Event>)
    requires Good(s)
    ensures Good(Run(s, es))
    decreases |es|
  {
    if es != [] {
      StepGood(s, es[0]);
      RunGood(Step(s, es[0]), es[1..]);
    }
  }

  lemma StartStructured(s: State)
    requires Start(s)
    ensures Structured(s) && Served(s)
  {
    assert forall p | p in s.ports :: Current(s, p) in s.queues;
  }

  lemma StartPort(s: State, p: nat)
    requires Start(s) && Shaped(s) && p in s.ports
    ensures Ordered(s, p, []) && Counted(s, p, []) && Covered(s, p)
  {
    assert Queued(s, p) == [];
    assert Players(s.threads, p, Holds) == {} && Players(s.threads, p, HoldsUnforced) == {};
  }

  lemma StartGood(s: State)
    requires Start(s)
    ensures Good(s) && AllCovered(s)
  {
    StartStructured(s);
    forall p | p in s.ports
      ensures Ordered(s, p, TransitOf(p, 0, [])) && Counted(s, p, TransitOf(p, 0, [])) && Covered(s, p)
    {
      StartPort(s, p);
    }
  }

  lemma RunConcat(s: State, a: seq<Event>, b: seq<Event>)
    ensures Run(s, a + b) == Run(Run(s, a), b)
    decreases |a|
  {
    if a == [] {
      assert a + b == b;
    } else {
      assert (a + b)[1..] == a[1..] + b;
      RunConcat(Step(s, a[0]), a[1..], b);
    }
  }

  // ---------------------------------------------------------------- histories only grow

  /** Messages are only ever added at the end of a port's histories; limits stay. */
  ghost predicate Grows(s: State, r: State) {
    && r.ports.Keys == s.ports.Keys
    && (forall p | p in s.ports ::
          && s.ports[p].accepted <= r.ports[p].accepted && s.ports[p].taken <= r.ports[p].taken
          && s.ports[p].done <= r.ports[p].done
          && r.ports[p].qlimit == s.ports[p].qlimit && r.ports[p].peak == s.ports[p].peak)
  }

  lemma OfferGrows(s: State, q: QueueId, k: Kmsg)
    requires q in s.queues && k.dest in s.ports
    ensures Grows(s, Offer(s, q, k))
    decreases |s.queues[q].threads|
  {
    var ts := s.queues[q].threads;
    if ts != [] && k.size > Msize(s, ts[0]) {
      OfferGrows(SetThread(PopThread(s, q), ts[0], RcvFailed(TooLarge(k.size))), q, k);
    }
  }

  lemma OfferAllGrows(s: State, q: QueueId, ks: seq<Kmsg>, p: nat)
    requires q in s.queues && p in s.ports && forall k <- ks :: k.dest == p
    ensures Grows(s, OfferAll(s, q, ks, p))
    decreases |ks|
  {
    if ks != [] {
      OfferKeeps(s, q, ks[0]);
      OfferGrows(s, q, ks[0]);
      OfferAllGrows(Offer(s, q, ks[0]), q, ks[1..], p);
    }
  }

  lemma TrySendGrows(s: State, t: nat, k: Kmsg, timed: bool, now: bool)
    requires k.dest in s.ports && Current(s, k.dest) in s.queues
    ensures Grows(s, TrySend(s, t, k, timed, now))
  {
    if HasRoom(s, k) && !k.circular {
      OfferGrows(CountedIn(Leave(s, t), k), Current(s, k.dest), k);
    }
  }

  lemma AddGrows(s: State, p: nat, n: nat)
    requires p in s.ports && PortQueue(p) in s.queues && SetQueue(n) in s.queues
    ensures Grows(s, AddToSet(s, p, n))
  {
    OfferAllGrows(Unlinked(s, p, Some(n), PortQueue(p)), SetQueue(n), For(s.queues[PortQueue(p)].messages, p), p);
  }

  lemma RemoveGrows(s: State, p: nat)
    requires Shaped(s) && p in s.ports && s.ports[p].pset.Some?
    ensures Grows(s, RemoveFromSet(s, p))
  {
    OfferAllGrows(Unlinked(s, p, None, Current(s, p)), PortQueue(p), For(s.queues[Current(s, p)].messages, p), p);
  }

  lemma SendTimeoutGrows(s: State, t: nat)
    requires Shaped(s) && Enabled(s, SendTimeout(t))
    ensures Grows(s, Apply(s, SendTimeout(t)))
  {
    TrySendGrows(Unblock(s, t, s.threads[t].kmsg.dest), t, s.threads[t].kmsg, true, true);
  }

  lemma StepGrows(s: State, e: Event)
    requires !e.SetQlimit?
    ensures Grows(s, Step(s, e))
  {
    if Shaped(s) && Enabled(s, e) {
      match e {
        case Send(t, k, timed, now) => TrySendGrows(s, t, k, timed, now);
        case SendResume(t) => TrySendGrows(s, t, s.threads[t].kmsg, s.threads[t].timed, false);
        case SendTimeout(t) => SendTimeoutGrows(s, t);
        case SetAdd(p, n) => AddGrows(s, p, n);
        case SetRemove(p) => RemoveGrows(s, p);
        case Receive(t, q, maxSize, timed, now) => TryReceiveGrows(s, t, q, maxSize, timed, now);
        case ReceiveTimeout(t) =>
          TryReceiveGrows(Unwait(s, t, s.threads[t].queue), t, s.threads[t].queue, s.threads[t].msize, true, true);
        case ReceiveFinish(t) => FinishGrows(s, t, s.threads[t].kmsg.dest);
        case _ =>
      }
    }
  }

  lemma TryReceiveGrows(s: State, t: nat, q: QueueId, maxSize: nat, timed: bool, now: bool)
    requires q in s.queues && forall k <- s.queues[q].messages :: k.dest in s.ports
    ensures Grows(s, TryReceive(s, t, q, maxSize, timed, now))
  {}

  lemma FinishGrows(s: State, t: nat, p: nat)
    requires p in s.ports && t in s.threads && s.threads[t].RcvHolding?
    ensures Grows(s, Finish(s, t, p))
  {}

  lemma QlimitGrows(s: State, p: nat, qlimit: nat)
    requires p in s.ports
    ensures var r := ChangeQlimit(s, p, qlimit);
      && r.ports.Keys == s.ports.Keys
      && (forall p' | p' in s.ports ::
            r.ports[p'].accepted == s.ports[p'].accepted && r.ports[p'].taken == s.ports[p'].taken)
  {
    WakeSomeKeeps(s, p, ExtraRoom(s, p, qlimit));
  }

  ghost predicate HistoriesGrow(s: State, r: State) {
    && r.ports.Keys == s.ports.Keys
    && (forall p | p in s.ports :: s.ports[p].accepted <= r.ports[p].accepted && s.ports[p].taken <= r.ports[p].taken)
  }

  lemma StepHistoriesGrow(s: State, e: Event)
    ensures HistoriesGrow(s, Step(s, e))
  {
    if e.SetQlimit? {
      if Shaped(s) && e.p in s.ports {
        QlimitGrows(s, e.p, e.qlimit);
      }
    } else {
      StepGrows(s, e);
    }
  }

  /** Later events never reorder, drop or renumber what a port has accepted or given out. */
  lemma RunHistoriesGrow(s: State, es: seq<Event>)
    ensures HistoriesGrow(s, Run(s, es))
    decreases |es|
  {
    if es != [] {
      StepHistoriesGrow(s, es[0]);
      RunHistoriesGrow(Step(s, es[0]), es[1..]);
      HistoriesTrans(s, Step(s, es[0]), Run(s, es));
    }
  }

  lemma HistoriesTrans(a: State, b: State, c: State)
    requires HistoriesGrow(a, b) && HistoriesGrow(b, c)
    ensures HistoriesGrow(a, c)
  {}

  predicate LimitsFixed(es: seq<Event>) {
    forall e <- es :: !e.SetQlimit?
  }

  lemma RunLimits(s: State, es: seq<Event>)
    requires LimitsFixed(es)
    ensures var r := Run(s, es);
      && r.ports.Keys == s.ports.Keys
      && forall p | p in s.ports :: r.ports[p].qlimit == s.ports[p].qlimit && r.ports[p].peak == s.ports[p].peak
    decreases |es|
  {
    if es != [] {
      StepGrows(s, es[0]);
      assert forall e <- es[1..] :: e in es;
      RunLimits(Step(s, es[0]), es[1..]);
    }
  }

  // ---------------------------------------------------------------- the main results

  /** Per-port FIFO, exactly once.  The messages a port has given out are, in order, the
      first ones it accepted; the rest are queued, in order; the k-th carries number k; and
      each that was given out is over or with one receiver, which has that message and number. */
  lemma FifoExactlyOnce(s: State, es: seq<Event>, p: nat)
    requires Start(s) && p in s.ports
    ensures var r := Run(s, es);
      && p in r.ports && Current(r, p) in r.queues
      && r.ports[p].accepted == Kmsgs(r.ports[p].taken) + Queued(r, p)
      && (forall i | 0 <= i < |r.ports[p].taken| :: r.ports[p].taken[i].seqno == i % SEQNO_MODULUS)
      && (forall i: nat | i < |r.ports[p].taken| ::
            (i in r.ports[p].done) != (exists t :: Holder(r, t, p, i)))
      && (forall t, i | Holder(r, t, p, i) :: HasPlace(r, t, p, i))
      && (forall t, t', i | Holder(r, t, p, i) && Holder(r, t', p, i) :: t == t')
  {
    StartGood(s);
    RunGood(s, es);
    RunHistoriesGrow(s, es);
    var r := Run(s, es);
    assert Ordered(r, p, TransitOf(p, 0, []));
    assert Kmsgs(r.ports[p].taken) + Queued(r, p) + [] == Kmsgs(r.ports[p].taken) + Queued(r, p);
    OneOrDone(r, p);
  }

  /** A receiver has the message and the number of its place in the history. */
  ghost predicate HasPlace(s: State, t: nat, p: nat, i: nat) {
    && p in s.ports && t in s.threads && Holding(s.threads[t]) && i < |s.ports[p].taken|
    && s.ports[p].taken[i] == Taken(s.threads[t].kmsg, s.threads[t].seqno)
  }

  lemma OneOrDone(s: State, p: nat)
    requires Delivered(s) && p in s.ports
    ensures forall i: nat | i < |s.ports[p].taken| :: (i in s.ports[p].done) != (exists t :: Holder(s, t, p, i))
    ensures forall t, i | Holder(s, t, p, i) :: HasPlace(s, t, p, i)
    ensures forall t, t', i | Holder(s, t, p, i) && Holder(s, t', p, i) :: t == t'
  {
    forall i: nat | i < |s.ports[p].taken|
      ensures (i in s.ports[p].done) != (exists t :: Holder(s, t, p, i))
    {
      if t :| Holder(s, t, p, i) {
        assert i !in s.ports[p].done;
      }
    }
  }

  /** Queue-limit accounting, with the limit left alone. */
  lemma LimitAccounting(s: State, es: seq<Event>, p: nat)
    requires Start(s) && p in s.ports && LimitsFixed(es)
    ensures var r := Run(s, es);
      && p in r.ports && Current(r, p) in r.queues
      && r.ports[p].msgcount == |Queued(r, p)| + Count(r.threads, p, Holds)
      && Unforced(Queued(r, p)) + Count(r.threads, p, HoldsUnforced) <= s.ports[p].qlimit
  {
    StartGood(s);
    RunGood(s, es);
    RunLimits(s, es);
    var r := Run(s, es);
    assert Counted(r, p, TransitOf(p, 0, []));
    assert s.ports[p].peak == s.ports[p].qlimit;
  }

  /** A queue with waiting receivers holds no messages, so a receive that times out finds none. */
  lemma TimeoutFindsNothing(s: State, es: seq<Event>, t: nat)
    requires Start(s) && Shaped(Run(s, es)) && Enabled(Run(s, es), ReceiveTimeout(t))
    ensures var r := Run(s, es);
      && r.queues[r.threads[t].queue].messages == []
      && Step(r, ReceiveTimeout(t)) == Unwait(r, t, r.threads[t].queue)
  {
    StartGood(s);
    RunGood(s, es);
    TimedOutThread(Run(s, es), t);
  }

  // ---------------------------------------------------------------- wake-ups

  /** The one event that loses a wake-up: a woken sender whose message is circular gives up
      the slot it was woken for, while the port is only just covered. */
  ghost predicate DropsWakeup(s: State, e: Event)
    requires Shaped(s)
  {
    && e.SendResume? && Enabled(s, e)
    && var k := s.threads[e.t].kmsg;
       && k.circular && HasRoom(s, k) && s.ports[k.dest].blocked != []
       && s.ports[k.dest].msgcount + Count(s.threads, k.dest, Woken) == s.ports[k.dest].qlimit
  }

  lemma CircularResume(s: State, t: nat)
    requires Shaped(s) && AllCovered(s) && Enabled(s, SendResume(t))
    requires s.threads[t].kmsg.circular && HasRoom(s, s.threads[t].kmsg)
    ensures AllCovered(Leave(s, t)) <==> !DropsWakeup(s, SendResume(t))
  {
    var k := s.threads[t].kmsg;
    var r := Leave(s, t);
    forall p | p in s.ports
      ensures Covered(r, p) <==> !(p == k.dest && DropsWakeup(s, SendResume(t)))
    {
      assert Covered(s, p);
      CountLeave(s.threads, t, p, Woken);
    }
    assert k.dest in s.ports;
  }

  lemma SendTimeoutCovered(s: State, t: nat)
    requires Core(s, 0, []) && AllCovered(s) && Enabled(s, SendTimeout(t))
    ensures AllCovered(Apply(s, SendTimeout(t)))
  {
    var k := s.threads[t].kmsg;
    UnblockStep(s, t);
    UnblockCovered(s, t, k.dest);
    TrySendCovered(Unblock(s, t, k.dest), t, k, true, true);
  }

  lemma TryReceiveSenders(s: State, t: nat, q: QueueId, maxSize: nat, timed: bool, now: bool)
    requires Shaped(s) && q in s.queues && t !in s.threads
    ensures SameSenders(s, TryReceive(s, t, q, maxSize, timed, now))
  {
    OtherStep(s, TryReceive(s, t, q, maxSize, timed, now), t);
  }

  lemma UnwaitSenders(s: State, t: nat, q: QueueId)
    requires q in s.queues && t in s.threads && s.threads[t].RcvBlocked?
    ensures SameSenders(s, Unwait(s, t, q))
  {
    OtherStep(s, Unwait(s, t, q), t);
  }

  lemma ReceiveCovered(s: State, e: Event)
    requires Core(s, 0, []) && AllCovered(s) && Enabled(s, e)
    requires e.Receive? || e.ReceiveResume? || e.ReceiveTimeout? || e.ReceiveInterrupt?
    ensures AllCovered(Apply(s, e))
  {
    match e {
      case Receive(t, q, maxSize, timed, now) => TryReceiveSenders(s, t, q, maxSize, timed, now);
      case ReceiveResume(t) => OtherStep(s, Apply(s, e), t);
      case ReceiveTimeout(t) =>
        TimedOutThread(s, t);
        UnwaitSenders(s, t, s.threads[t].queue);
      case ReceiveInterrupt(t) => UnwaitSenders(s, t, s.threads[t].queue);
    }
    SameSendersCovered(s, Apply(s, e));
  }

  lemma TimedOutThread(s: State, t: nat)
    requires Core(s, 0, []) && Enabled(s, ReceiveTimeout(t))
    ensures s.queues[s.threads[t].queue].messages == []
    ensures Apply(s, ReceiveTimeout(t)) == Unwait(s, t, s.threads[t].queue)
  {
    var q := s.threads[t].queue;
    assert t in s.queues[q].threads;
    assert Unwait(s, t, q).threads - {t} == Unwait(s, t, q).threads;
  }

  lemma SetCovered(s: State, e: Event)
    requires Core(s, 0, []) && AllCovered(s) && Enabled(s, e)
    requires e.SetAdd? || e.SetRemove? || e.SetDestroy?
    ensures AllCovered(Apply(s, e))
  {
    match e {
      case SetAdd(p, n) => AddSenders(s, p, n);
      case SetRemove(p) => MoveSenders(s, p, None);
      case SetDestroy(n) =>
        DeactivateCore(s, n);
        ChangedSenders(s.(activeSets := s.activeSets - {n}), SetQueue(n), PortDied);
    }
    SameSendersCovered(s, Apply(s, e));
  }

  /** Exactly when an event keeps every port covered. */
  lemma WakeupLostIff(s: State, e: Event)
    requires Core(s, 0, []) && AllCovered(s)
    ensures AllCovered(Apply(s, e)) <==> !DropsWakeup(s, e)
  {
    if Enabled(s, e) {
      match e {
        case Send(t, k, timed, now) => TrySendCovered(s, t, k, timed, now);
        case SendResume(t) =>
          if s.threads[t].kmsg.circular && HasRoom(s, s.threads[t].kmsg) {
            CircularResume(s, t);
          } else if s.threads[t].kmsg.circular {
            BlockCovered(s, t, s.threads[t].kmsg, s.threads[t].timed);
          } else {
            TrySendCovered(s, t, s.threads[t].kmsg, s.threads[t].timed, false);
          }
        case SendTimeout(t) => SendTimeoutCovered(s, t);
        case SendInterrupt(t) => UnblockCovered(s, t, s.threads[t].kmsg.dest);
        case ReceiveFinish(t) => FinishCovered(s, t);
        case SetQlimit(p, qlimit) => QlimitCovered(s, p, qlimit);
        case SetAdd(p, n) => SetCovered(s, e);
        case SetRemove(p) => SetCovered(s, e);
        case SetDestroy(n) => SetCovered(s, e);
        case Receive(t, _, _, _, _) => ReceiveCovered(s, e);
        case ReceiveResume(t) => ReceiveCovered(s, e);
        case ReceiveTimeout(t) => ReceiveCovered(s, e);
        case ReceiveInterrupt(t) => ReceiveCovered(s, e);
      }
    }
  }

  // ---------------------------------------------------------------- runs without circular messages

  predicate Sender(th: Thread) { th.SendBlocked? || th.SendWoken? }

  ghost predicate NoCircular(s: State) {
    forall t | t in s.threads && Sender(s.threads[t]) :: !s.threads[t].kmsg.circular
  }

  /** Every sender of `r` was a sender of `s`, with the same message. */
  ghost predicate NoNewSender(s: State, r: State) {
    forall t | t in r.threads && Sender(r.threads[t]) ::
      t in s.threads && Sender(s.threads[t]) && s.threads[t].kmsg == r.threads[t].kmsg
  }

  lemma OfferNoNewSender(s: State, q: QueueId, k: Kmsg)
    requires q in s.queues && k.dest in s.ports
    ensures NoNewSender(s, Offer(s, q, k))
    decreases |s.queues[q].threads|
  {
    var ts := s.queues[q].threads;
    if ts != [] && k.size > Msize(s, ts[0]) {
      OfferNoNewSender(SetThread(PopThread(s, q), ts[0], RcvFailed(TooLarge(k.size))), q, k);
    }
  }

  lemma OfferAllNoNewSender(s: State, q: QueueId, ks: seq<Kmsg>, p: nat)
    requires q in s.queues && p in s.ports && forall k <- ks :: k.dest == p
    ensures NoNewSender(s, OfferAll(s, q, ks, p))
    decreases |ks|
  {
    if ks != [] {
      OfferKeeps(s, q, ks[0]);
      OfferNoNewSender(s, q, ks[0]);
      OfferAllNoNewSender(Offer(s, q, ks[0]), q, ks[1..], p);
    }
  }

  lemma WakeAllNoNewSender(threads: map<nat, Thread>, ts: seq<nat>, error: RcvError)
    ensures var r := WakeAll(threads, ts, RcvFailed(error));
      forall t | t in r && Sender(r[t]) :: t in threads && threads[t] == r[t]
    decreases |ts|
  {
    if ts != [] {
      WakeAllNoNewSender(threads[ts[0] := RcvFailed(error)], ts[1..], error);
    }
  }

  lemma WakeSomeNoNewSender(s: State, p: nat, n: nat)
    requires p in s.ports
    ensures NoNewSender(s, WakeSome(s, p, n))
    decreases n
  {
    if n != 0 && s.ports[p].blocked != [] {
      WakeSomeNoNewSender(WakeSender(s, p), p, n - 1);
    }
  }

  lemma TrySendNoCircular(s: State, t: nat, k: Kmsg, timed: bool, now: bool)
    requires k.dest in s.ports && Current(s, k.dest) in s.queues && NoCircular(s) && !k.circular
    ensures NoCircular(TrySend(s, t, k, timed, now))
  {
    if HasRoom(s, k) {
      OfferNoNewSender(CountedIn(Leave(s, t), k), Current(s, k.dest), k);
    }
  }

  lemma SetNoCircular(s: State, e: Event)
    requires Shaped(s) && NoCircular(s) && Enabled(s, e)
    requires e.SetAdd? || e.SetRemove? || e.SetDestroy? || e.SetQlimit?
    ensures NoCircular(Apply(s, e))
  {
    match e {
      case SetAdd(p, n) =>
        var s1 := Unlinked(s, p, Some(n), PortQueue(p));
        var s2 := OfferAll(s1, SetQueue(n), For(s.queues[PortQueue(p)].messages, p), p);
        OfferAllNoNewSender(s1, SetQueue(n), For(s.queues[PortQueue(p)].messages, p), p);
        OfferAllKeeps(s1, SetQueue(n), For(s.queues[PortQueue(p)].messages, p), p);
        WakeAllNoNewSender(s2.threads, s2.queues[PortQueue(p)].threads, PortChanged);
      case SetRemove(p) =>
        OfferAllNoNewSender(Unlinked(s, p, None, Current(s, p)), PortQueue(p),
          For(s.queues[Current(s, p)].messages, p), p);
      case SetDestroy(n) => WakeAllNoNewSender(s.threads, s.queues[SetQueue(n)].threads, PortDied);
      case SetQlimit(p, qlimit) => WakeSomeNoNewSender(s, p, ExtraRoom(s, p, qlimit));
    }
  }

  lemma StepNoCircular(s: State, e: Event)
    requires NoCircular(s) && !(e.Send? && e.kmsg.circular)
    ensures NoCircular(Step(s, e))
  {
    if Shaped(s) && Enabled(s, e) {
      match e {
        case Send(t, k, timed, now) => TrySendNoCircular(s, t, k, timed, now);
        case SendResume(t) => TrySendNoCircular(s, t, s.threads[t].kmsg, s.threads[t].timed, false);
        case SendTimeout(t) =>
          TrySendNoCircular(Unblock(s, t, s.threads[t].kmsg.dest), t, s.threads[t].kmsg, true, true);
        case SetAdd(p, n) => SetNoCircular(s, e);
        case SetRemove(p) => SetNoCircular(s, e);
        case SetDestroy(n) => SetNoCircular(s, e);
        case SetQlimit(p, qlimit) => SetNoCircular(s, e);
        case _ =>
      }
    }
  }

  predicate SendsNoCircular(es: seq<Event>) {
    forall e <- es :: !(e.Send? && e.kmsg.circular)
  }

  lemma RunCovered(s: State, es: seq<Event>)
    requires Good(s) && NoCircular(s) && AllCovered(s) && SendsNoCircular(es)
    ensures AllCovered(Run(s, es))
    decreases |es|
  {
    if es != [] {
      var e := es[0];
      assert e in es && forall e' <- es[1..] :: e' in es;
      WakeupLostIff(s, e);
      StepNoCircular(s, e);
      StepGood(s, e);
      RunCovered(Step(s, e), es[1..]);
    }
  }

  /** No lost wake-up, over every run in which no circular message is sent: under any
      interleaving of sends, forced sends, time-outs, interrupts, receives, set changes and
      limit changes, a port with blocked senders is covered. */
  lemma NoLostWakeup(s: State, es: seq<Event>, p: nat)
    requires Start(s) && p in s.ports && SendsNoCircular(es)
    ensures var r := Run(s, es);
      && p in r.ports
      && (r.ports[p].blocked != [] ==> r.ports[p].msgcount + Count(r.threads, p, Woken) >= r.ports[p].qlimit)
  {
    StartGood(s);
    RunCovered(s, es);
    RunHistoriesGrow(s, es);
    assert Covered(Run(s, es), p);
  }
}
