/**
  * What giving up a wait, and what adding a port to a set, taking it out and destroying the set do, in the fields of
  * ports, queues and threads (ipc/ipc_mqueue.c, ipc/ipc_pset.c).
  */
module MessageQueueSetLaws {
  import opened Options
  import opened MessageQueue
  import opened MessageQueueInvariant
  import opened MessageQueueSteps
  import opened MessageQueueDelivery
  import opened MessageQueueRuns
  import opened MessageQueueLaws

  // ---------------------------------------------------------------- giving up

  /** One list is another without the thread, which was on it. */
  ghost predicate TakenOff(ts: seq<nat>, rest: seq<nat>, t: nat) {
    exists i | 0 <= i < |ts| :: ts[i] == t && rest == ts[..i] + ts[i + 1..]
  }

  lemma {:induction false} WithoutAt(ts: seq<nat>, t: nat) returns (i: nat)
    requires t in ts
    ensures i < |ts| && ts[i] == t && Without(ts, t) == ts[..i] + ts[i + 1..]
  {
    if ts[0] == t {
      i := 0;
    } else {
      var rest := ts[1..];
      var j := WithoutAt(rest, t);
      i := j + 1;
      assert [ts[0]] + rest[..j] == ts[..i] && rest[j + 1..] == ts[i + 1..];
    }
  }

  lemma WithoutTakesOff(ts: seq<nat>, t: nat)
    requires t in ts
    ensures TakenOff(ts, Without(ts, t), t)
  {
    var i := WithoutAt(ts, t);
  }

  /** A sender that is interrupted leaves the list of its port, and nothing else changes. */
  lemma SendInterrupted(s0: State, es: seq<Event>, t: nat)
    requires Start(s0) && t in Run(s0, es).threads && Run(s0, es).threads[t].SendBlocked?
    ensures var s := Run(s0, es); var r := Step(s, SendInterrupt(t)); var p := s.threads[t].kmsg.dest;
      && r.threads == s.threads - {t} && r.queues == s.queues && p in s.ports
      && r.ports.Keys == s.ports.Keys && TakenOff(s.ports[p].blocked, r.ports[p].blocked, t)
      && r.ports == s.ports[p := s.ports[p].(blocked := r.ports[p].blocked)]
  {
    StartGood(s0);
    RunGood(s0, es);
    var s := Run(s0, es);
    WithoutTakesOff(s.ports[s.threads[t].kmsg.dest].blocked, t);
  }

  /** A receiver leaves the list of its queue, and nothing else changes. */
  ghost predicate StopsWaiting(s: State, r: State, t: nat, q: QueueId) {
    && q in s.queues && q in r.queues
    && r.threads == s.threads - {t} && r.ports == s.ports
    && TakenOff(s.queues[q].threads, r.queues[q].threads, t)
    && r.queues == s.queues[q := s.queues[q].(threads := r.queues[q].threads)]
  }

  lemma UnwaitStops(s: State, t: nat)
    requires Structured(s) && t in s.threads && s.threads[t].RcvBlocked?
    ensures s.threads[t].queue in s.queues && StopsWaiting(s, Unwait(s, t, s.threads[t].queue), t, s.threads[t].queue)
  {
    WithoutTakesOff(s.queues[s.threads[t].queue].threads, t);
  }

  /** A receiver that is interrupted, or whose time is up, leaves: while it waits there is no message for it. */
  lemma ReceiveGivenUp(s0: State, es: seq<Event>, t: nat, timeout: bool)
    requires Start(s0) && t in Run(s0, es).threads && Run(s0, es).threads[t].RcvBlocked?
    requires timeout ==> Run(s0, es).threads[t].timed
    ensures var s := Run(s0, es);
      StopsWaiting(s, Step(s, if timeout then ReceiveTimeout(t) else ReceiveInterrupt(t)), t, s.threads[t].queue)
  {
    StartGood(s0);
    RunGood(s0, es);
    var s := Run(s0, es);
    UnwaitStops(s, t);
  }

  ghost predicate ResumeLaw(s: State, r: State, t: nat)
    requires t in s.threads
  {
    && r.queues == s.queues && r.ports == s.ports
    && match s.threads[t]
       case RcvHanded(k, seqno, ticket) => r.threads == s.threads[t := RcvHolding(k, seqno, ticket)]
       case _ => r.threads == s.threads - {t}
  }

  lemma ResumeApplies(s: State, t: nat)
    requires Shaped(s) && t in s.threads && (s.threads[t].RcvHanded? || s.threads[t].RcvFailed?)
    ensures ResumeLaw(s, Apply(s, ReceiveResume(t)), t)
  {}

  /** A receiver that was woken has the message it was given, or leaves with the error it was told. */
  lemma ReceiveResumed(s0: State, es: seq<Event>, t: nat)
    requires Start(s0) && t in Run(s0, es).threads
    requires var th := Run(s0, es).threads[t]; th.RcvHanded? || th.RcvFailed?
    ensures var s := Run(s0, es); ResumeLaw(s, Step(s, ReceiveResume(t)), t)
  {
    StartGood(s0);
    RunGood(s0, es);
    ResumeApplies(Run(s0, es), t);
  }

  // ---------------------------------------------------------------- a set is destroyed

  /** These threads were told, and no others. */
  ghost predicate AllTold(threads: map<nat, Thread>, r: map<nat, Thread>, ts: seq<nat>, error: RcvError) {
    && (forall t | t in ts :: t in r && r[t] == RcvFailed(error))
    && (forall t | t !in ts :: (t in r <==> t in threads) && (t in threads ==> r[t] == threads[t]))
  }

  lemma {:induction false} WakeAllTells(threads: map<nat, Thread>, ts: seq<nat>, error: RcvError)
    ensures AllTold(threads, WakeAll(threads, ts, RcvFailed(error)), ts, error)
    decreases |ts|
  {
    if ts != [] {
      WakeAllTells(threads[ts[0] := RcvFailed(error)], ts[1..], error);
    }
  }

  ghost predicate DestroyLaw(s: State, r: State, n: nat)
    requires SetQueue(n) in s.queues
  {
    var q := SetQueue(n);
    && r.activeSets == s.activeSets - {n} && r.ports == s.ports
    && r.queues == s.queues[q := Mqueue(s.queues[q].messages, [])]
    && AllTold(s.threads, r.threads, s.queues[q].threads, PortDied)
  }

  lemma DestroyTells(s: State, n: nat)
    requires Shaped(s) && n in s.activeSets && SetQueue(n) in s.queues
    ensures DestroyLaw(s, Apply(s, SetDestroy(n)), n)
  {
    WakeAllTells(s.threads, s.queues[SetQueue(n)].threads, PortDied);
  }

  /** All who receive from the set are told that it died; its messages and its members stay for their ports. */
  lemma SetDestroyed(s0: State, es: seq<Event>, n: nat)
    requires Start(s0) && n in Run(s0, es).activeSets && SetQueue(n) in Run(s0, es).queues
    ensures var s := Run(s0, es); DestroyLaw(s, Step(s, SetDestroy(n)), n)
  {
    StartGood(s0);
    RunGood(s0, es);
    DestroyTells(Run(s0, es), n);
  }

  // ---------------------------------------------------------------- moving messages

  /** A message goes to the first waiting receiver that is large enough, or to the end of the queue. */
  ghost predicate Delivers(s: State, r: State, q: QueueId, k: Kmsg) {
    && q in s.queues && k.dest in s.ports
    && exists j ::
         && FirstLargeEnough(s, q, k, j) && Given(s, r, q, k, j) && SameCounts(s, r)
         && Told(s, r, q, k, j, s.ports[k.dest].seqno, |s.ports[k.dest].taken|)
  }

  /** Messages are delivered one after the other. */
  ghost predicate DeliversAll(sts: seq<State>, q: QueueId, ks: seq<Kmsg>) {
    |sts| == |ks| + 1 && forall i | 0 <= i < |ks| :: Delivers(sts[i], sts[i + 1], q, ks[i])
  }

  lemma OfferDeliversOne(s: State, q: QueueId, k: Kmsg)
    requires q in s.queues && k.dest in s.ports && AllWait(s, q)
    ensures Delivers(s, Offer(s, q, k), q, k) && AllWait(Offer(s, q, k), q)
  {
    var j := OfferGives(s, q, k);
    StillWait(s, Offer(s, q, k), q, k, j);
  }

  lemma StillWait(s: State, r: State, q: QueueId, k: Kmsg, j: nat)
    requires q in s.queues && k.dest in s.ports && AllWait(s, q) && j <= |s.queues[q].threads|
    requires Given(s, r, q, k, j) && Told(s, r, q, k, j, s.ports[k.dest].seqno, |s.ports[k.dest].taken|)
    ensures AllWait(r, q)
  {
    var ts := s.queues[q].threads;
    forall i | 0 <= i < |r.queues[q].threads| ensures Waits(r, r.queues[q].threads[i], q) {
      assert r.queues[q].threads[i] == ts[j + 1 + i];
      assert Waits(s, ts[j + 1 + i], q);
    }
  }

  lemma DeliversMore(s: State, rest: seq<State>, q: QueueId, ks: seq<Kmsg>)
    requires ks != [] && DeliversAll(rest, q, ks[1..]) && Delivers(s, rest[0], q, ks[0])
    ensures DeliversAll([s] + rest, q, ks)
  {
    var sts := [s] + rest;
    forall i | 0 <= i < |ks| ensures Delivers(sts[i], sts[i + 1], q, ks[i]) {
      if i > 0 {
        assert sts[i] == rest[i - 1] && sts[i + 1] == rest[i] && ks[i] == ks[1..][i - 1];
      }
    }
  }

  lemma {:induction false} OfferAllDeliversAll(s: State, q: QueueId, ks: seq<Kmsg>, p: nat) returns (sts: seq<State>)
    requires q in s.queues && p in s.ports && AllWait(s, q) && forall k <- ks :: k.dest == p
    ensures DeliversAll(sts, q, ks) && sts[0] == s && sts[|ks|] == OfferAll(s, q, ks, p)
    decreases |ks|
  {
    if ks == [] {
      sts := [s];
    } else {
      OfferKeeps(s, q, ks[0]);
      OfferDeliversOne(s, q, ks[0]);
      var rest := OfferAllDeliversAll(Offer(s, q, ks[0]), q, ks[1..], p);
      DeliversMore(s, rest, q, ks);
      sts := [s] + rest;
    }
  }

  // ---------------------------------------------------------------- a port joins a set

  /** The port's own queue has only messages for the port. */
  lemma OwnMessages(s: State, p: nat)
    requires Structured(s) && p in s.ports
    ensures PortQueue(p) in s.queues && forall k <- s.queues[PortQueue(p)].messages :: k.dest == p
  {}

  lemma {:induction false} ForAll(ks: seq<Kmsg>, p: nat)
    requires forall k <- ks :: k.dest == p
    ensures For(ks, p) == ks && NotFor(ks, p) == []
  {
    if ks != [] {
      ForAll(ks[1..], p);
    }
  }

  /** The state in which the port is a member and its own queue is empty of messages. */
  ghost predicate Joined(s: State, m: State, p: nat, n: nat)
    requires p in s.ports && PortQueue(p) in s.queues
  {
    && m.threads == s.threads && m.activeSets == s.activeSets
    && m.ports == s.ports[p := s.ports[p].(pset := Some(n))]
    && m.queues == s.queues[PortQueue(p) := Mqueue([], s.queues[PortQueue(p)].threads)]
  }

  /**
    * The messages of the port are delivered to the set, in order; then all who received from the port itself are told.
    */
  ghost predicate AddLaw(s: State, r: State, p: nat, n: nat)
    requires p in s.ports && PortQueue(p) in s.queues
  {
    var own := s.queues[PortQueue(p)];
    exists sts: seq<State> ::
      && DeliversAll(sts, SetQueue(n), own.messages) && Joined(s, sts[0], p, n)
      && var m := sts[|own.messages|];
         && r.ports == m.ports && r.queues == m.queues[PortQueue(p) := Mqueue([], [])]
         && AllTold(m.threads, r.threads, own.threads, PortChanged)
  }

  lemma AddMoves(s: State, p: nat, n: nat)
    requires Structured(s) && p in s.ports && s.ports[p].pset.None? && n in s.activeSets && SetQueue(n) in s.queues
    ensures PortQueue(p) in s.queues && AddLaw(s, AddToSet(s, p, n), p, n)
  {
    OwnMessages(s, p);
    var own := s.queues[PortQueue(p)];
    ForAll(own.messages, p);
    var m := SetMqueue(SetPort(s, p, s.ports[p].(pset := Some(n))), PortQueue(p), own.(messages := []));
    WaitElsewhere(s, m, p, n);
    var sts := OfferAllDeliversAll(m, SetQueue(n), own.messages, p);
    OfferAllKeeps(m, SetQueue(n), own.messages, p);
    WakeAllTells(sts[|own.messages|].threads, own.threads, PortChanged);
  }

  lemma WaitElsewhere(s: State, m: State, p: nat, n: nat)
    requires Structured(s) && p in s.ports && SetQueue(n) in s.queues && PortQueue(p) in s.queues && Joined(s, m, p, n)
    ensures AllWait(m, SetQueue(n))
  {
    var ts := s.queues[SetQueue(n)].threads;
    forall i | 0 <= i < |ts| ensures Waits(m, ts[i], SetQueue(n)) {
      assert ts[i] in ts;
    }
  }

  lemma AddApplies(s: State, p: nat, n: nat)
    requires Inv(s) && p in s.ports && s.ports[p].pset.None? && n in s.activeSets && SetQueue(n) in s.queues
    ensures PortQueue(p) in s.queues && AddLaw(s, Apply(s, SetAdd(p, n)), p, n)
  {
    AddMoves(s, p, n);
    assert Apply(s, SetAdd(p, n)) == AddToSet(s, p, n);
  }

  lemma SetAdded(s0: State, es: seq<Event>, p: nat, n: nat)
    requires Start(s0)
    requires var s := Run(s0, es);
      p in s.ports && s.ports[p].pset.None? && n in s.activeSets && SetQueue(n) in s.queues
    ensures var s := Run(s0, es); PortQueue(p) in s.queues && AddLaw(s, Step(s, SetAdd(p, n)), p, n)
  {
    StartGood(s0);
    RunGood(s0, es);
    AddApplies(Run(s0, es), p, n);
  }

  // ---------------------------------------------------------------- a port leaves its set

  /** Two lists that divide a third: the messages for the port, and the others. */
  ghost predicate Divides(ks: seq<Kmsg>, mine: seq<Kmsg>, others: seq<Kmsg>, p: nat) {
    && multiset(mine) + multiset(others) == multiset(ks)
    && (forall k <- mine :: k.dest == p) && (forall k <- others :: k.dest != p)
  }

  lemma {:induction false} ForDivides(ks: seq<Kmsg>, p: nat)
    ensures Divides(ks, For(ks, p), NotFor(ks, p), p)
  {
    if ks != [] {
      ForDivides(ks[1..], p);
      assert ks == [ks[0]] + ks[1..];
    }
  }

  /** The port is no member; its messages are on its own queue, where nobody waits, and no longer on the set's. */
  ghost predicate RemoveLaw(s: State, r: State, p: nat)
    requires p in s.ports && s.ports[p].pset.Some? && SetQueue(s.ports[p].pset.value) in s.queues
  {
    var q := SetQueue(s.ports[p].pset.value);
    && r.threads == s.threads && r.ports == s.ports[p := s.ports[p].(pset := None)]
    && r.queues.Keys == s.queues.Keys && PortQueue(p) in r.queues && r.queues[PortQueue(p)].threads == []
    && r.queues[q].threads == s.queues[q].threads
    && Divides(s.queues[q].messages, r.queues[PortQueue(p)].messages, r.queues[q].messages, p)
    && forall x | x in s.queues && x != q && x != PortQueue(p) :: r.queues[x] == s.queues[x]
  }

  /** With nobody waiting, the messages are queued. */
  lemma {:induction false} OfferAllQueues(s: State, q: QueueId, ks: seq<Kmsg>, p: nat)
    requires q in s.queues && p in s.ports && s.queues[q].threads == [] && forall k <- ks :: k.dest == p
    ensures OfferAll(s, q, ks, p) == SetMqueue(s, q, Mqueue(s.queues[q].messages + ks, []))
    decreases |ks|
  {
    if ks == [] {
      assert s.queues[q].messages + ks == s.queues[q].messages;
      assert s.queues == s.queues[q := Mqueue(s.queues[q].messages, [])];
    } else {
      OfferAllQueues(Enqueue(s, q, ks[0]), q, ks[1..], p);
      assert s.queues[q].messages + [ks[0]] + ks[1..] == s.queues[q].messages + ks;
    }
  }

  /** A message on the port's own queue is for the port, which is then in no set. */
  lemma OwnAlone(s: State, p: nat, k: Kmsg)
    requires Structured(s) && p in s.ports && PortQueue(p) in s.queues && k in s.queues[PortQueue(p)].messages
    ensures s.ports[p].pset.None?
  {}

  lemma NothingOwn(s: State, p: nat)
    requires Inv(s) && p in s.ports && s.ports[p].pset.Some?
    ensures PortQueue(p) in s.queues && s.queues[PortQueue(p)] == Mqueue([], [])
  {
    var ms := s.queues[PortQueue(p)].messages;
    if ms != [] {
      OwnAlone(s, p, ms[0]);
    }
  }

  lemma RemoveIs(s: State, p: nat, q: QueueId)
    requires Inv(s) && p in s.ports && s.ports[p].pset.Some? && q == SetQueue(s.ports[p].pset.value)
    ensures q in s.queues && PortQueue(p) in s.queues
    ensures var r, ks := RemoveFromSet(s, p), s.queues[q].messages;
      && r.threads == s.threads && r.ports == s.ports[p := s.ports[p].(pset := None)]
      && r.queues == s.queues[q := Mqueue(NotFor(ks, p), s.queues[q].threads)][PortQueue(p) := Mqueue(For(ks, p), [])]
  {
    NothingOwn(s, p);
    var ks := s.queues[q].messages;
    var m := SetMqueue(SetPort(s, p, s.ports[p].(pset := None)), q, s.queues[q].(messages := NotFor(ks, p)));
    OfferAllQueues(m, PortQueue(p), For(ks, p), p);
    assert [] + For(ks, p) == For(ks, p);
  }

  lemma RemoveMoves(s: State, p: nat)
    requires Inv(s) && p in s.ports && s.ports[p].pset.Some?
    ensures SetQueue(s.ports[p].pset.value) in s.queues && RemoveLaw(s, Apply(s, SetRemove(p)), p)
  {
    var q := SetQueue(s.ports[p].pset.value);
    RemoveIs(s, p, q);
    ForDivides(s.queues[q].messages, p);
    assert Apply(s, SetRemove(p)) == RemoveFromSet(s, p);
  }

  lemma SetRemoved(s0: State, es: seq<Event>, p: nat)
    requires Start(s0) && p in Run(s0, es).ports && Run(s0, es).ports[p].pset.Some?
    ensures var s := Run(s0, es);
      SetQueue(s.ports[p].pset.value) in s.queues && RemoveLaw(s, Step(s, SetRemove(p)), p)
  {
    StartGood(s0);
    RunGood(s0, es);
    RemoveMoves(Run(s0, es), p);
  }
}
