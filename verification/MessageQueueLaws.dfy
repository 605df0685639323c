/**
  * What one send, one receive and one change of limit do, in the fields of ports, queues and threads: who gets
  * in, who waits, and who gets which message (ipc/ipc_mqueue.c).
  */
module MessageQueueLaws {
  import opened Options
  import opened MessageQueue
  import opened MessageQueueInvariant
  import opened MessageQueueSteps
  import opened MessageQueueDelivery
  import opened MessageQueueRuns

  // ---------------------------------------------------------------- where a message goes

  ghost predicate Waits(s: State, t: nat, q: QueueId) {
    t in s.threads && s.threads[t].RcvBlocked? && s.threads[t].queue == q
  }

  /** The waiting receivers before place `j` are too small for the message, and the one there is not. */
  ghost predicate FirstLargeEnough(s: State, q: QueueId, k: Kmsg, j: nat)
    requires q in s.queues
  {
    var ts := s.queues[q].threads;
    && j <= |ts|
    && (forall i | 0 <= i < |ts| :: Waits(s, ts[i], q))
    && (forall i | 0 <= i < j :: s.threads[ts[i]].msize < k.size)
    && (j < |ts| ==> k.size <= s.threads[ts[j]].msize)
  }

  /** Receivers before place `j` were told that the message is too large, the one there has it, others are as before. */
  ghost predicate Told(s: State, r: State, q: QueueId, k: Kmsg, j: nat, seqno: nat, ticket: nat)
    requires q in s.queues && j <= |s.queues[q].threads|
  {
    var ts := s.queues[q].threads;
    && (forall i | 0 <= i < j :: ts[i] in r.threads && r.threads[ts[i]] == RcvFailed(TooLarge(k.size)))
    && (j < |ts| ==> ts[j] in r.threads && r.threads[ts[j]] == RcvHanded(k, seqno, ticket))
    && (forall t | t !in ts[..j] && (j < |ts| ==> t != ts[j]) ::
          (t in r.threads <==> t in s.threads) && (t in s.threads ==> r.threads[t] == s.threads[t]))
  }

  /** The message is with the receiver at place `j`, or at the end of the queue if there is none. */
  ghost predicate Given(s: State, r: State, q: QueueId, k: Kmsg, j: nat)
    requires q in s.queues && k.dest in s.ports && j <= |s.queues[q].threads|
  {
    var ts, port := s.queues[q].threads, s.ports[k.dest];
    && q in r.queues && k.dest in r.ports
    && if j < |ts| then
         && r.queues[q] == Mqueue(s.queues[q].messages, ts[j + 1..])
         && r.ports[k.dest].taken == port.taken + [Taken(k, port.seqno)]
         && r.ports[k.dest].seqno == (port.seqno + 1) % 0x1_0000_0000
       else
         && r.queues[q] == Mqueue(s.queues[q].messages + [k], [])
         && r.ports[k.dest].taken == port.taken && r.ports[k.dest].seqno == port.seqno
  }

  /** What has nothing to do with where messages go is as it was. */
  ghost predicate SameCounts(s: State, r: State) {
    && r.ports.Keys == s.ports.Keys
    && forall p | p in s.ports ::
         && r.ports[p].accepted == s.ports[p].accepted && r.ports[p].msgcount == s.ports[p].msgcount
         && r.ports[p].blocked == s.ports[p].blocked && r.ports[p].qlimit == s.ports[p].qlimit
         && r.ports[p].pset == s.ports[p].pset
  }

  ghost predicate AllWait(s: State, q: QueueId)
    requires q in s.queues
  {
    Distinct(s.queues[q].threads) && forall i | 0 <= i < |s.queues[q].threads| :: Waits(s, s.queues[q].threads[i], q)
  }

  /** The receiver loop: the first receiver that is large enough gets the message. */
  lemma {:induction false} OfferGives(s: State, q: QueueId, k: Kmsg) returns (j: nat)
    requires q in s.queues && k.dest in s.ports && AllWait(s, q)
    ensures FirstLargeEnough(s, q, k, j)
    ensures var r, port := Offer(s, q, k), s.ports[k.dest];
      Given(s, r, q, k, j) && Told(s, r, q, k, j, port.seqno, |port.taken|) && SameCounts(s, r)
    decreases |s.queues[q].threads|
  {
    var ts := s.queues[q].threads;
    if ts == [] {
      j := 0;
    } else if k.size <= Msize(s, ts[0]) {
      j := 0;
      OfferFirst(s, q, k);
    } else {
      var s' := SetThread(PopThread(s, q), ts[0], RcvFailed(TooLarge(k.size)));
      PoppedWait(s, q, RcvFailed(TooLarge(k.size)));
      var j' := OfferGives(s', q, k);
      j := j' + 1;
      OfferSkip(s, s', Offer(s', q, k), q, k, j');
    }
  }

  lemma PoppedWait(s: State, q: QueueId, th: Thread)
    requires q in s.queues && s.queues[q].threads != [] && AllWait(s, q)
    ensures AllWait(SetThread(PopThread(s, q), s.queues[q].threads[0], th), q)
  {
    var s', ts := SetThread(PopThread(s, q), s.queues[q].threads[0], th), s.queues[q].threads;
    forall i | 0 <= i < |s'.queues[q].threads| ensures Waits(s', s'.queues[q].threads[i], q) {
      assert s'.queues[q].threads[i] == ts[i + 1];
      assert Waits(s, ts[i + 1], q);
    }
  }

  lemma OfferFirst(s: State, q: QueueId, k: Kmsg)
    requires q in s.queues && k.dest in s.ports && AllWait(s, q) && s.queues[q].threads != []
    requires k.size <= Msize(s, s.queues[q].threads[0])
    ensures var r, port := Offer(s, q, k), s.ports[k.dest];
      && FirstLargeEnough(s, q, k, 0)
      && Given(s, r, q, k, 0) && Told(s, r, q, k, 0, port.seqno, |port.taken|) && SameCounts(s, r)
  {
    assert Waits(s, s.queues[q].threads[0], q);
  }

  lemma OfferSkip(s: State, s': State, r: State, q: QueueId, k: Kmsg, j: nat)
    requires q in s.queues && k.dest in s.ports && AllWait(s, q) && s.queues[q].threads != []
    requires s.threads[s.queues[q].threads[0]].msize < k.size
    requires s' == SetThread(PopThread(s, q), s.queues[q].threads[0], RcvFailed(TooLarge(k.size)))
    requires FirstLargeEnough(s', q, k, j) && Given(s', r, q, k, j) && SameCounts(s', r)
    requires Told(s', r, q, k, j, s.ports[k.dest].seqno, |s.ports[k.dest].taken|)
    ensures FirstLargeEnough(s, q, k, j + 1) && Given(s, r, q, k, j + 1) && SameCounts(s, r)
    ensures Told(s, r, q, k, j + 1, s.ports[k.dest].seqno, |s.ports[k.dest].taken|)
  {
    SkipFirst(s, s', q, k, j);
    SkipTold(s, s', r, q, k, j, s.ports[k.dest].seqno, |s.ports[k.dest].taken|);
    SkipGiven(s, s', r, q, k, j);
  }

  lemma SkipGiven(s: State, s': State, r: State, q: QueueId, k: Kmsg, j: nat)
    requires q in s.queues && k.dest in s.ports && s.queues[q].threads != [] && j < |s.queues[q].threads|
    requires s' == SetThread(PopThread(s, q), s.queues[q].threads[0], RcvFailed(TooLarge(k.size)))
    requires Given(s', r, q, k, j)
    ensures Given(s, r, q, k, j + 1)
  {
    var ts := s.queues[q].threads;
    assert s'.queues[q].threads == ts[1..];
    if j + 1 < |ts| {
      assert ts[1..][j + 1..] == ts[j + 2..];
    }
  }

  lemma SkipFirst(s: State, s': State, q: QueueId, k: Kmsg, j: nat)
    requires q in s.queues && AllWait(s, q) && s.queues[q].threads != []
    requires s.threads[s.queues[q].threads[0]].msize < k.size
    requires s' == SetThread(PopThread(s, q), s.queues[q].threads[0], RcvFailed(TooLarge(k.size)))
    requires FirstLargeEnough(s', q, k, j)
    ensures FirstLargeEnough(s, q, k, j + 1)
  {
    var ts := s.queues[q].threads;
    forall i | 0 <= i < j + 1 ensures s.threads[ts[i]].msize < k.size {
      if i > 0 {
        assert s'.queues[q].threads[i - 1] == ts[i];
      }
    }
    if j + 1 < |ts| {
      assert s'.queues[q].threads[j] == ts[j + 1];
    }
  }

  lemma SkipTold(s: State, s': State, r: State, q: QueueId, k: Kmsg, j: nat, seqno: nat, ticket: nat)
    requires q in s.queues && Distinct(s.queues[q].threads) && s.queues[q].threads != []
    requires s.queues[q].threads[0] in s.threads
    requires s' == SetThread(PopThread(s, q), s.queues[q].threads[0], RcvFailed(TooLarge(k.size)))
    requires j < |s.queues[q].threads| && Told(s', r, q, k, j, seqno, ticket)
    ensures Told(s, r, q, k, j + 1, seqno, ticket)
  {
    var ts, ts' := s.queues[q].threads, s'.queues[q].threads;
    assert ts' == ts[1..];
    assert ts[0] !in ts'[..j];
    forall i | 0 <= i < j + 1 ensures ts[i] in r.threads && r.threads[ts[i]] == RcvFailed(TooLarge(k.size)) {
      if i > 0 {
        assert ts'[i - 1] == ts[i];
      }
    }
    if j + 1 < |ts| {
      assert ts'[j] == ts[j + 1];
    }
    forall t | t !in ts[..j + 1] && (j + 1 < |ts| ==> t != ts[j + 1])
      ensures (t in r.threads <==> t in s.threads) && (t in s.threads ==> r.threads[t] == s.threads[t])
    {
      assert ts[0] in ts[..j + 1];
      forall i | 0 <= i < j ensures ts'[i] != t {
        assert ts[i + 1] in ts[..j + 1];
      }
      assert t !in ts'[..j];
    }
  }

  // ---------------------------------------------------------------- a send

  /** A thread tries to send: it comes with a message, was woken, or its time ran out; `last` if it will not wait. */
  datatype Attempt = Attempt(t: nat, k: Kmsg, last: bool)

  function Tries(s: State, e: Event): Option<Attempt> {
    match e
    case Send(t, k, timed, now) =>
      if t !in s.threads && k.dest in s.ports then Some(Attempt(t, k, timed && now)) else None
    case SendResume(t) =>
      if t in s.threads && s.threads[t].SendWoken? then Some(Attempt(t, s.threads[t].kmsg, false)) else None
    case SendTimeout(t) =>
      if t in s.threads && s.threads[t].SendBlocked? && s.threads[t].timed then
        Some(Attempt(t, s.threads[t].kmsg, true))
      else None
    case _ => None
  }

  /** The queue that a port's messages are in: its own, or that of its set. */
  function QueueOf(port: Port, p: nat): QueueId { if port.pset.Some? then SetQueue(port.pset.value) else PortQueue(p) }

  /** Nobody else began or ceased to wait for room, and no limit changed. */
  ghost predicate OthersWait(s: State, r: State, t: nat) {
    && r.ports.Keys == s.ports.Keys
    && forall p | p in s.ports ::
         && r.ports[p].qlimit == s.ports[p].qlimit
         && forall u | u != t :: u in r.ports[p].blocked <==> u in s.ports[p].blocked
  }

  /** The decision: who is let in, who waits, who is turned away. */
  ghost predicate Decided(s: State, r: State, a: Attempt)
    requires a.k.dest in s.ports
  {
    var p, port := a.k.dest, s.ports[a.k.dest];
    && p in r.ports && OthersWait(s, r, a.t)
    && (a.t in r.ports[p].blocked <==> port.msgcount >= port.qlimit && !a.k.forced && !a.last)
    && (a.t in r.threads <==> a.t in r.ports[p].blocked)
    && (if !a.k.circular && (port.msgcount < port.qlimit || a.k.forced) then
          r.ports[p].accepted == port.accepted + [a.k] && r.ports[p].msgcount == port.msgcount + 1
        else
          r.ports[p].accepted == port.accepted && r.ports[p].msgcount == port.msgcount && r.queues == s.queues)
    && forall p' | p' in s.ports && p' != p :: r.ports[p'].accepted == s.ports[p'].accepted
  }

  ghost predicate ArrivesAt(s: State, r: State, k: Kmsg, q: QueueId, j: nat)
    requires k.dest in s.ports && q in s.queues
  {
    var ts, port := s.queues[q].threads, s.ports[k.dest];
    && FirstLargeEnough(s, q, k, j) && Given(s, r, q, k, j)
    && (forall i | 0 <= i < j :: ts[i] in r.threads && r.threads[ts[i]] == RcvFailed(TooLarge(k.size)))
    && (j < |ts| ==> ts[j] in r.threads && r.threads[ts[j]] == RcvHanded(k, port.seqno, |port.taken|))
  }

  /** A message that is let in goes to the first waiting receiver that is large enough, or to the end of the queue. */
  ghost predicate Arrives(s: State, r: State, k: Kmsg)
    requires k.dest in s.ports && QueueOf(s.ports[k.dest], k.dest) in s.queues
  {
    exists j: nat :: ArrivesAt(s, r, k, QueueOf(s.ports[k.dest], k.dest), j)
  }

  /** The state in which the thread is at the limit test, off every list. */
  ghost predicate Ready(s: State, t: nat) {
    && Shaped(s) && ReceiversListed(s) && (forall p | p in s.ports :: t !in s.ports[p].blocked)
    && (t in s.threads ==> s.threads[t].SendWoken?)
  }

  lemma ReadyAllWait(s: State, q: QueueId)
    requires ReceiversListed(s) && q in s.queues
    ensures AllWait(s, q)
  {}

  /** Leaving and being counted changes nothing for those who wait for messages. */
  lemma LeaveWaits(s: State, t: nat, k: Kmsg, q: QueueId)
    requires Ready(s, t) && q in s.queues && k.dest in s.ports
    ensures AllWait(CountedIn(Leave(s, t), k), q)
  {
    ReadyAllWait(s, q);
    var s', ts := CountedIn(Leave(s, t), k), s.queues[q].threads;
    forall i | 0 <= i < |ts| ensures Waits(s', ts[i], q) {
      assert Waits(s, ts[i], q);
    }
  }

  lemma TryDecides(s: State, t: nat, k: Kmsg, timed: bool, now: bool)
    requires Ready(s, t) && k.dest in s.ports
    ensures var r, a := TrySend(s, t, k, timed, now), Attempt(t, k, timed && now);
      && Decided(s, r, a)
      && (!k.circular && (s.ports[k.dest].msgcount < s.ports[k.dest].qlimit || k.forced) ==> Arrives(s, r, k))
  {
    var q := Current(s, k.dest);
    if (s.ports[k.dest].msgcount < s.ports[k.dest].qlimit || k.forced) && !k.circular {
      var s' := CountedIn(Leave(s, t), k);
      LeaveWaits(s, t, k, q);
      var j := OfferGives(s', q, k);
      TryPlaces(s, s', Offer(s', q, k), t, k, q, j);
      TryCounts(s, s', Offer(s', q, k), t, k, q, j, timed && now);
    }
  }

  /** The receivers that wait are those that waited before the sender left. */
  lemma SameWaits(s: State, s': State, t: nat, k: Kmsg, q: QueueId, j: nat)
    requires Ready(s, t) && k.dest in s.ports && s' == CountedIn(Leave(s, t), k) && q in s.queues
    requires FirstLargeEnough(s', q, k, j)
    ensures FirstLargeEnough(s, q, k, j) && t !in s.queues[q].threads
  {
    ReadyAllWait(s, q);
    var ts := s.queues[q].threads;
    forall i | 0 <= i < |ts| ensures ts[i] != t && s'.threads[ts[i]] == s.threads[ts[i]] {
      assert Waits(s, ts[i], q);
    }
  }

  lemma SameGiven(s: State, s': State, r: State, t: nat, k: Kmsg, q: QueueId, j: nat)
    requires k.dest in s.ports && s' == CountedIn(Leave(s, t), k) && q in s.queues && j <= |s.queues[q].threads|
    requires Given(s', r, q, k, j)
    ensures Given(s, r, q, k, j)
  {}

  lemma TryPlaces(s: State, s': State, r: State, t: nat, k: Kmsg, q: QueueId, j: nat)
    requires Ready(s, t) && k.dest in s.ports && s' == CountedIn(Leave(s, t), k) && q == Current(s, k.dest)
    requires FirstLargeEnough(s', q, k, j) && Given(s', r, q, k, j)
    requires Told(s', r, q, k, j, s.ports[k.dest].seqno, |s.ports[k.dest].taken|)
    ensures Arrives(s, r, k)
  {
    SameWaits(s, s', t, k, q, j);
    SameGiven(s, s', r, t, k, q, j);
    assert q == QueueOf(s.ports[k.dest], k.dest);
    assert ArrivesAt(s, r, k, QueueOf(s.ports[k.dest], k.dest), j);
  }

  lemma TryCounts(s: State, s': State, r: State, t: nat, k: Kmsg, q: QueueId, j: nat, last: bool)
    requires Ready(s, t) && k.dest in s.ports && s' == CountedIn(Leave(s, t), k) && q in s.queues && !k.circular
    requires s.ports[k.dest].msgcount < s.ports[k.dest].qlimit || k.forced
    requires FirstLargeEnough(s', q, k, j) && SameCounts(s', r)
    requires Told(s', r, q, k, j, s.ports[k.dest].seqno, |s.ports[k.dest].taken|)
    ensures Decided(s, r, Attempt(t, k, last))
  {
    SameWaits(s, s', t, k, q, j);
    assert t !in s.queues[q].threads[..j];
    assert t !in r.threads;
  }

  /** What an attempt comes to. */
  ghost predicate Answered(s: State, r: State, a: Attempt)
    requires a.k.dest in s.ports && QueueOf(s.ports[a.k.dest], a.k.dest) in s.queues
  {
    var port := s.ports[a.k.dest];
    Decided(s, r, a) && (!a.k.circular && (port.msgcount < port.qlimit || a.k.forced) ==> Arrives(s, r, a.k))
  }

  lemma WithoutOne(ts: seq<nat>, t: nat)
    requires Distinct(ts)
    ensures t !in Without(ts, t) && forall u | u != t :: u in Without(ts, t) <==> u in ts
  {
    if ts != [] {
      WithoutOne(ts[1..], t);
    }
  }

  /** A thread that gives up waiting is off the list, and all else is the same. */
  lemma UnblockWaits(s: State, t: nat, p: nat)
    requires SendersListed(s) && p in s.ports
    requires t in s.threads && s.threads[t].SendBlocked? && s.threads[t].kmsg.dest == p
    ensures var s' := Unblock(s, t, p);
      OthersWait(s, s', t) && s'.queues == s.queues && forall p' | p' in s'.ports :: t !in s'.ports[p'].blocked
  {
    WithoutOne(s.ports[p].blocked, t);
  }

  lemma UnblockListed(s: State, t: nat, p: nat)
    requires ReceiversListed(s) && t in s.threads && s.threads[t].SendBlocked? && p in s.ports
    ensures ReceiversListed(Unblock(s, t, p))
  {}

  lemma UnblockShaped(s: State, t: nat, p: nat)
    requires Shaped(s) && p in s.ports
    ensures Shaped(Unblock(s, t, p)) && Current(Unblock(s, t, p), p) == Current(s, p)
  {}

  lemma UnblockReady(s: State, t: nat, p: nat)
    requires Structured(s) && t in s.threads && s.threads[t].SendBlocked? && s.threads[t].kmsg.dest == p && p in s.ports
    ensures Ready(Unblock(s, t, p), t)
  {
    UnblockWaits(s, t, p);
    UnblockListed(s, t, p);
    UnblockShaped(s, t, p);
  }

  /** The same port and queues, but for the thread that gave up. */
  ghost predicate GaveUp(s: State, s': State, t: nat, k: Kmsg) {
    && k.dest in s.ports && k.dest in s'.ports && s'.queues == s.queues && s'.threads == s.threads - {t}
    && OthersWait(s, s', t)
    && forall p | p in s.ports ::
         && s'.ports[p].msgcount == s.ports[p].msgcount && s'.ports[p].accepted == s.ports[p].accepted
         && s'.ports[p].taken == s.ports[p].taken && s'.ports[p].seqno == s.ports[p].seqno
         && s'.ports[p].pset == s.ports[p].pset
  }

  lemma UnblockGaveUp(s: State, t: nat, k: Kmsg)
    requires SendersListed(s) && k.dest in s.ports
    requires t in s.threads && s.threads[t].SendBlocked? && s.threads[t].kmsg == k
    ensures GaveUp(s, Unblock(s, t, k.dest), t, k)
  {
    UnblockWaits(s, t, k.dest);
  }

  lemma GaveUpDecided(s: State, s': State, r: State, t: nat, k: Kmsg)
    requires GaveUp(s, s', t, k) && Decided(s', r, Attempt(t, k, true))
    ensures Decided(s, r, Attempt(t, k, true))
  {}

  lemma GaveUpArrives(s: State, s': State, r: State, t: nat, k: Kmsg)
    requires GaveUp(s, s', t, k) && QueueOf(s.ports[k.dest], k.dest) in s.queues && Arrives(s', r, k)
    ensures Arrives(s, r, k)
  {
    var q := QueueOf(s.ports[k.dest], k.dest);
    assert q == QueueOf(s'.ports[k.dest], k.dest);
    var j: nat :| ArrivesAt(s', r, k, q, j);
    GaveUpFirst(s, s', t, k, q, j);
    assert Given(s, r, q, k, j);
    assert ArrivesAt(s, r, k, QueueOf(s.ports[k.dest], k.dest), j);
  }

  lemma GaveUpFirst(s: State, s': State, t: nat, k: Kmsg, q: QueueId, j: nat)
    requires GaveUp(s, s', t, k) && q in s.queues && FirstLargeEnough(s', q, k, j)
    ensures FirstLargeEnough(s, q, k, j)
  {
    var ts := s.queues[q].threads;
    forall i | 0 <= i < |ts| ensures Waits(s, ts[i], q) && s.threads[ts[i]] == s'.threads[ts[i]] {
      assert Waits(s', ts[i], q);
    }
  }

  lemma TimeoutAnswers(s: State, t: nat)
    requires Structured(s) && t in s.threads && s.threads[t].SendBlocked? && s.threads[t].kmsg.dest in s.ports
    ensures var k := s.threads[t].kmsg;
      && QueueOf(s.ports[k.dest], k.dest) in s.queues
      && Answered(s, TrySend(Unblock(s, t, k.dest), t, k, true, true), Attempt(t, k, true))
  {
    var k := s.threads[t].kmsg;
    var s' := Unblock(s, t, k.dest);
    UnblockReady(s, t, k.dest);
    UnblockGaveUp(s, t, k);
    UnblockShaped(s, t, k.dest);
    assert Current(s, k.dest) == QueueOf(s.ports[k.dest], k.dest);
    TryDecides(s', t, k, true, true);
    var r := TrySend(s', t, k, true, true);
    GaveUpDecided(s, s', r, t, k);
    if !k.circular && (s.ports[k.dest].msgcount < s.ports[k.dest].qlimit || k.forced) {
      GaveUpArrives(s, s', r, t, k);
    }
  }

  lemma ReadyFresh(s: State, t: nat)
    requires Structured(s) && (t in s.threads ==> s.threads[t].SendWoken?)
    ensures Ready(s, t)
  {}

  lemma SendAnswers(s: State, e: Event)
    requires Structured(s) && Tries(s, e).Some?
    ensures var a := Tries(s, e).value;
      a.k.dest in s.ports && QueueOf(s.ports[a.k.dest], a.k.dest) in s.queues && Answered(s, Apply(s, e), a)
  {
    match e
    case Send(t, k, timed, now) =>
      ReadyFresh(s, t);
      TryDecides(s, t, k, timed, now);
    case SendResume(t) =>
      ReadyFresh(s, t);
      TryDecides(s, t, s.threads[t].kmsg, s.threads[t].timed, false);
    case SendTimeout(t) =>
      TimeoutAnswers(s, t);
  }

  /**
    * The send decision, in every state of every run.  A thread that comes to send, was woken, or gives up waiting
    * is on the list of blocked senders afterwards exactly if the count has reached the limit, the message is not
    * forced and the thread will still wait; a message that is not circular is accepted exactly if the count is
    * below the limit or it is forced, and then goes to the first receiver that is large enough, or is queued.
    */
  lemma SendsDecided(s0: State, es: seq<Event>, e: Event)
    requires Start(s0) && Tries(Run(s0, es), e).Some?
    ensures var s := Run(s0, es); var a := Tries(s, e).value;
      a.k.dest in s.ports && QueueOf(s.ports[a.k.dest], a.k.dest) in s.queues && Answered(s, Step(s, e), a)
  {
    StartGood(s0);
    RunGood(s0, es);
    SendAnswers(Run(s0, es), e);
  }

  // ---------------------------------------------------------------- a receive

  /** A thread may begin to receive: from a port outside every set, or from a living set. */
  predicate Receives(s: State, t: nat, q: QueueId) {
    && t !in s.threads && q in s.queues
    && match q
       case PortQueue(p) => p in s.ports && s.ports[p].pset.None?
       case SetQueue(n) => n in s.activeSets
  }

  /** It takes the first message if that fits, leaves it if not, and waits if there is none and it has time. */
  ghost predicate ReceiveLaw(s: State, r: State, t: nat, q: QueueId, maxSize: nat, timed: bool, now: bool)
    requires q in s.queues
  {
    var ks, ts := s.queues[q].messages, s.queues[q].threads;
    && q in r.queues
    && (t in r.threads && r.threads[t].RcvHolding? <==> ks != [] && ks[0].size <= maxSize)
    && (t in r.threads && r.threads[t].RcvBlocked? <==> ks == [] && !(timed && now))
    && (t in r.threads ==> r.threads[t].RcvHolding? || r.threads[t].RcvBlocked?)
    && (forall u | u != t :: (u in r.threads <==> u in s.threads) && (u in s.threads ==> r.threads[u] == s.threads[u]))
    && (ks != [] && ks[0].size <= maxSize ==>
          var k := ks[0];
          && k.dest in s.ports && k.dest in r.ports
          && r.threads[t] == RcvHolding(k, s.ports[k.dest].seqno, |s.ports[k.dest].taken|)
          && r.queues[q] == Mqueue(ks[1..], ts)
          && r.ports[k.dest].taken == s.ports[k.dest].taken + [Taken(k, s.ports[k.dest].seqno)]
          && r.ports[k.dest].seqno == (s.ports[k.dest].seqno + 1) % 0x1_0000_0000
          && r.ports[k.dest].msgcount == s.ports[k.dest].msgcount)
    && (ks != [] && ks[0].size > maxSize ==> r.queues == s.queues && r.ports == s.ports)
    && (ks == [] ==>
          && r.ports == s.ports && r.queues[q].messages == []
          && if timed && now then r.queues[q].threads == ts
             else r.queues[q].threads == [t] + ts && r.threads[t] == RcvBlocked(q, maxSize, timed))
  }

  lemma ReceivesDecided(s0: State, es: seq<Event>, t: nat, q: QueueId, maxSize: nat, timed: bool, now: bool)
    requires Start(s0) && Receives(Run(s0, es), t, q)
    ensures var s := Run(s0, es); ReceiveLaw(s, Step(s, Receive(t, q, maxSize, timed, now)), t, q, maxSize, timed, now)
  {
    StartGood(s0);
    RunGood(s0, es);
    ReceiveAnswers(Run(s0, es), t, q, maxSize, timed, now);
  }

  lemma ReceiveAnswers(s: State, t: nat, q: QueueId, maxSize: nat, timed: bool, now: bool)
    requires Shaped(s) && Receives(s, t, q)
    ensures ReceiveLaw(s, Apply(s, Receive(t, q, maxSize, timed, now)), t, q, maxSize, timed, now)
  {}

  /**
    * The second half of a receive: the count goes down by one, and the sender that blocked last is woken exactly
    * if there is one and the count is then below the limit.
    */
  ghost predicate FinishLaw(s: State, r: State, t: nat)
    requires t in s.threads && s.threads[t].RcvHolding? && s.threads[t].kmsg.dest in s.ports
  {
    var p := s.threads[t].kmsg.dest;
    var port, wakes := s.ports[p], s.ports[p].blocked != [] && s.ports[p].msgcount - 1 < s.ports[p].qlimit;
    && p in r.ports && t !in r.threads && r.queues == s.queues
    && r.ports[p].msgcount == port.msgcount - 1 && r.ports[p].done == port.done + {s.threads[t].ticket}
    && r.ports[p].blocked == (if wakes then port.blocked[1..] else port.blocked)
    && (forall u | u != t && !(wakes && u == port.blocked[0]) ::
          (u in r.threads <==> u in s.threads) && (u in s.threads ==> r.threads[u] == s.threads[u]))
    && (wakes ==>
          var u := port.blocked[0];
          && u in s.threads && s.threads[u].SendBlocked? && u in r.threads
          && r.threads[u] == SendWoken(s.threads[u].kmsg, s.threads[u].timed))
  }

  lemma FinishWakes(s: State, t: nat, p: nat)
    requires t in s.threads && s.threads[t].RcvHolding? && s.threads[t].kmsg.dest == p && p in s.ports
    requires s.ports[p].blocked != [] ==>
      s.ports[p].blocked[0] in s.threads && s.threads[s.ports[p].blocked[0]].SendBlocked?
    ensures FinishLaw(s, Finish(s, t, p), t)
  {}

  lemma FinishAnswers(s: State, t: nat)
    requires Shaped(s) && SendersListed(s)
    requires t in s.threads && s.threads[t].RcvHolding? && s.threads[t].kmsg.dest in s.ports
    ensures FinishLaw(s, Apply(s, ReceiveFinish(t)), t)
  {
    var p := s.threads[t].kmsg.dest;
    if s.ports[p].blocked != [] {
      assert s.ports[p].blocked[0] in s.ports[p].blocked;
    }
    FinishWakes(s, t, p);
  }

  lemma FinishesDecided(s0: State, es: seq<Event>, t: nat)
    requires Start(s0) && t in Run(s0, es).threads && Run(s0, es).threads[t].RcvHolding?
    ensures var s := Run(s0, es); s.threads[t].kmsg.dest in s.ports && FinishLaw(s, Step(s, ReceiveFinish(t)), t)
  {
    StartGood(s0);
    RunGood(s0, es);
    FinishAnswers(Run(s0, es), t);
  }

  // ---------------------------------------------------------------- a new limit

  /** As many senders are woken, those that blocked last, as the limit grew by, or all. */
  ghost predicate LimitLaw(s: State, r: State, p: nat, qlimit: nat)
    requires p in s.ports
  {
    var b := s.ports[p].blocked;
    var n := if qlimit <= s.ports[p].qlimit then 0 else Min(|b|, qlimit - s.ports[p].qlimit);
    && p in r.ports && r.queues == s.queues && r.ports[p].qlimit == qlimit && r.ports[p].msgcount == s.ports[p].msgcount
    && r.ports[p].blocked == b[n..]
    && (forall i | 0 <= i < n ::
          && b[i] in s.threads && s.threads[b[i]].SendBlocked? && b[i] in r.threads
          && r.threads[b[i]] == SendWoken(s.threads[b[i]].kmsg, s.threads[b[i]].timed))
    && (forall u | u !in b[..n] ::
          (u in r.threads <==> u in s.threads) && (u in s.threads ==> r.threads[u] == s.threads[u]))
  }

  ghost predicate AllBlocked(s: State, b: seq<nat>) {
    Distinct(b) && forall i | 0 <= i < |b| :: b[i] in s.threads && s.threads[b[i]].SendBlocked?
  }

  /** After `n` were woken. */
  ghost predicate WokenLaw(s: State, r: State, p: nat, n: nat)
    requires p in s.ports && n <= |s.ports[p].blocked|
  {
    var b := s.ports[p].blocked;
    && p in r.ports && r.queues == s.queues && r.ports[p] == s.ports[p].(blocked := b[n..])
    && (forall i | 0 <= i < n ::
          && b[i] in s.threads && s.threads[b[i]].SendBlocked? && b[i] in r.threads
          && r.threads[b[i]] == SendWoken(s.threads[b[i]].kmsg, s.threads[b[i]].timed))
    && (forall u | u !in b[..n] ::
          (u in r.threads <==> u in s.threads) && (u in s.threads ==> r.threads[u] == s.threads[u]))
  }

  lemma WokenMore(s: State, s': State, r: State, p: nat, n: nat)
    requires p in s.ports && s.ports[p].blocked != [] && AllBlocked(s, s.ports[p].blocked) && s' == WakeSender(s, p)
    requires n < |s.ports[p].blocked| && WokenLaw(s', r, p, n)
    ensures WokenLaw(s, r, p, n + 1)
  {
    var b := s.ports[p].blocked;
    assert s'.ports[p].blocked == b[1..];
    assert b[1..][n..] == b[n + 1..];
    forall i | 0 <= i < n + 1
      ensures b[i] in s.threads && s.threads[b[i]].SendBlocked? && b[i] in r.threads
        && r.threads[b[i]] == SendWoken(s.threads[b[i]].kmsg, s.threads[b[i]].timed)
    {
      if i > 0 {
        assert b[1..][i - 1] == b[i];
      } else {
        assert b[0] !in b[1..][..n];
      }
    }
    forall u | u !in b[..n + 1]
      ensures (u in r.threads <==> u in s.threads) && (u in s.threads ==> r.threads[u] == s.threads[u])
    {
      assert b[0] in b[..n + 1];
      forall i | 0 <= i < n ensures b[1..][i] != u {
        assert b[i + 1] in b[..n + 1];
      }
      assert u !in b[1..][..n];
    }
  }

  lemma {:induction false} WakeSomeLaw(s: State, p: nat, n: nat)
    requires p in s.ports && AllBlocked(s, s.ports[p].blocked)
    ensures WokenLaw(s, WakeSome(s, p, n), p, Min(|s.ports[p].blocked|, n))
    decreases n
  {
    var b := s.ports[p].blocked;
    if n > 0 && b != [] {
      var s' := WakeSender(s, p);
      assert AllBlocked(s', b[1..]) by {
        forall i | 0 <= i < |b[1..]| ensures b[1..][i] in s'.threads && s'.threads[b[1..][i]].SendBlocked? {
          assert b[1..][i] == b[i + 1];
        }
      }
      WakeSomeLaw(s', p, n - 1);
      WokenMore(s, s', WakeSome(s', p, n - 1), p, Min(|b|, n) - 1);
    }
  }

  lemma LimitAnswers(s: State, p: nat, qlimit: nat)
    requires Structured(s) && p in s.ports
    ensures LimitLaw(s, Apply(s, SetQlimit(p, qlimit)), p, qlimit)
  {
    WakeSomeLaw(s, p, ExtraRoom(s, p, qlimit));
  }

  lemma LimitsDecided(s0: State, es: seq<Event>, p: nat, qlimit: nat)
    requires Start(s0) && p in Run(s0, es).ports
    ensures var s := Run(s0, es); LimitLaw(s, Step(s, SetQlimit(p, qlimit)), p, qlimit)
  {
    StartGood(s0);
    RunGood(s0, es);
    LimitAnswers(Run(s0, es), p, qlimit);
  }
}
