/**
 Mach message queues (ipc/ipc_mqueue.c) as a transition system.

 Every event is one region of code executed under the port lock or the message-queue
 lock.  `Apply` gives the state after an event; an event that its thread could not
 perform leaves the state alone.  Threads that are in no send or receive call are not
 in the `threads` map, so there is no bound on the number of threads.
 */
module MessageQueue {

  import opened Options

  // mach_port_seqno_t is an unsigned 32-bit counter.
  const SEQNO_MODULUS: nat := 0x1_0000_0000

  /** A port has its own message queue; a port set has one shared by its members. */
  datatype QueueId = PortQueue(port: nat) | SetQueue(pset: nat)

  /** `forced` is MACH_SEND_ALWAYS or a send-once destination: never waits for room. */
  datatype Kmsg = Kmsg(id: nat, dest: nat, size: nat, forced: bool, circular: bool)

  datatype RcvError = TooLarge(size: nat) | PortChanged | PortDied

  /** A thread inside a send or receive call, by where it stands and its ith_state.
      A receiver's `ticket` is the place of its message in the history of the port. */
  datatype Thread =
    | SendBlocked(kmsg: Kmsg, timed: bool)                 // on ip_blocked
    | SendWoken(kmsg: Kmsg, timed: bool)                   // ith_state == SUCCESS, not resumed
    | RcvBlocked(queue: QueueId, msize: nat, timed: bool)  // on imq_threads
    | RcvHanded(kmsg: Kmsg, seqno: nat, ticket: nat)       // ith_kmsg set, not resumed
    | RcvFailed(error: RcvError)                           // woken without a message
    | RcvHolding(kmsg: Kmsg, seqno: nat, ticket: nat)      // queue unlocked, port not relocked

  datatype Taken = Taken(kmsg: Kmsg, seqno: nat)

  /** `accepted` and `taken` are histories: messages counted in, and messages given a seqno.
      `done` has the places in `taken` of the messages whose receive is over.
      `peak` is the largest queue limit the port has had. */
  datatype Port = Port(msgcount: int, qlimit: nat, peak: nat, seqno: nat, blocked: seq<nat>,
                       pset: Option<nat>, accepted: seq<Kmsg>, taken: seq<Taken>, done: set<nat>)

  datatype Mqueue = Mqueue(messages: seq<Kmsg>, threads: seq<nat>)

  datatype State = State(ports: map<nat, Port>, queues: map<QueueId, Mqueue>,
                         activeSets: set<nat>, threads: map<nat, Thread>)

  datatype Event =
    | Send(t: nat, kmsg: Kmsg, timed: bool, now: bool)     // now: time_out == 0
    | SendResume(t: nat)
    | SendTimeout(t: nat)
    | SendInterrupt(t: nat)
    | Receive(t: nat, q: QueueId, maxSize: nat, timed: bool, now: bool)
    | ReceiveResume(t: nat)
    | ReceiveTimeout(t: nat)
    | ReceiveInterrupt(t: nat)
    | ReceiveFinish(t: nat)
    | SetAdd(p: nat, n: nat)
    | SetRemove(p: nat)
    | SetDestroy(n: nat)
    | SetQlimit(p: nat, qlimit: nat)

  // ---------------------------------------------------------------- pieces of a region

  /** The queue that currently holds a port's messages (ip_pset decides). */
  function Current(s: State, p: nat): (q: QueueId)
    requires p in s.ports
  {
    match s.ports[p].pset
    case None => PortQueue(p)
    case Some(n) => SetQueue(n)
  }

  function Msize(s: State, t: nat): nat {
    if t in s.threads && s.threads[t].RcvBlocked? then s.threads[t].msize else 0
  }

  /** Removes a thread from a thread queue. */
  function Without(ts: seq<nat>, t: nat): seq<nat> {
    if ts == [] then [] else if ts[0] == t then ts[1..] else [ts[0]] + Without(ts[1..], t)
  }

  function SetThread(s: State, t: nat, th: Thread): State { s.(threads := s.threads[t := th]) }

  function Leave(s: State, t: nat): State { s.(threads := s.threads - {t}) }

  function SetPort(s: State, p: nat, port: Port): State { s.(ports := s.ports[p := port]) }

  function SetMqueue(s: State, q: QueueId, mq: Mqueue): State { s.(queues := s.queues[q := mq]) }

  /** `port->ip_seqno++`, recorded together with the message that gets the number. */
  function TakeSeqno(port: Port, k: Kmsg): Port {
    port.(seqno := (port.seqno + 1) % SEQNO_MODULUS, taken := port.taken + [Taken(k, port.seqno)])
  }

  /** Gives `k` to the receiver `t`: ith_state, ith_kmsg and ith_seqno. */
  function Handoff(s: State, t: nat, k: Kmsg): State
    requires k.dest in s.ports
  {
    var port := s.ports[k.dest];
    SetPort(SetThread(s, t, RcvHanded(k, port.seqno, |port.taken|)), k.dest, TakeSeqno(port, k))
  }

  function PopThread(s: State, q: QueueId): State
    requires q in s.queues && s.queues[q].threads != []
  {
    SetMqueue(s, q, s.queues[q].(threads := s.queues[q].threads[1..]))
  }

  function Enqueue(s: State, q: QueueId, k: Kmsg): State
    requires q in s.queues
  {
    SetMqueue(s, q, s.queues[q].(messages := s.queues[q].messages + [k]))
  }

  /** The receiver loop of ipc_mqueue_send and ipc_mqueue_move: wake waiting receivers,
      most recent first, until one has room for `k`; queue `k` if none has. */
  function Offer(s: State, q: QueueId, k: Kmsg): State
    requires q in s.queues && k.dest in s.ports
    decreases |s.queues[q].threads|
  {
    var ts := s.queues[q].threads;
    if ts == [] then
      Enqueue(s, q, k)
    else if k.size <= Msize(s, ts[0]) then
      Handoff(PopThread(s, q), ts[0], k)
    else
      Offer(SetThread(PopThread(s, q), ts[0], RcvFailed(TooLarge(k.size))), q, k)
  }

  /** Offers a list of messages for port `p`, in order. */
  function OfferAll(s: State, q: QueueId, ks: seq<Kmsg>, p: nat): State
    requires q in s.queues && p in s.ports
    requires forall k <- ks :: k.dest == p
    decreases |ks|
  {
    if ks == [] then s
    else
      OfferKeeps(s, q, ks[0]);
      OfferAll(Offer(s, q, ks[0]), q, ks[1..], p)
  }

  lemma OfferKeeps(s: State, q: QueueId, k: Kmsg)
    requires q in s.queues && k.dest in s.ports
    ensures var r := Offer(s, q, k);
      && r.queues.Keys == s.queues.Keys && r.ports.Keys == s.ports.Keys
      && r.activeSets == s.activeSets
      && (forall q' | q' in s.queues && q' != q :: r.queues[q'] == s.queues[q'])
    decreases |s.queues[q].threads|
  {
    var ts := s.queues[q].threads;
    if ts != [] && k.size > Msize(s, ts[0]) {
      OfferKeeps(SetThread(PopThread(s, q), ts[0], RcvFailed(TooLarge(k.size))), q, k);
    }
  }

  /** The messages of a queue that are for port `p`, and those that are not. */
  function For(ks: seq<Kmsg>, p: nat): (r: seq<Kmsg>)
    ensures forall k <- r :: k.dest == p && k in ks
  {
    if ks == [] then []
    else if ks[0].dest == p then [ks[0]] + For(ks[1..], p)
    else For(ks[1..], p)
  }

  function NotFor(ks: seq<Kmsg>, p: nat): (r: seq<Kmsg>)
    ensures forall k <- r :: k.dest != p && k in ks
  {
    if ks == [] then []
    else if ks[0].dest != p then [ks[0]] + NotFor(ks[1..], p)
    else NotFor(ks[1..], p)
  }

  /** ipc_mqueue_move: take the port's messages out of `source`, offer them to `dest` in order. */
  function Move(s: State, dest: QueueId, source: QueueId, p: nat): State
    requires dest in s.queues && source in s.queues && dest != source && p in s.ports
  {
    var ks := s.queues[source].messages;
    OfferAll(SetMqueue(s, source, s.queues[source].(messages := NotFor(ks, p))), dest, For(ks, p), p)
  }

  function WakeAll(threads: map<nat, Thread>, ts: seq<nat>, th: Thread): map<nat, Thread>
    decreases |ts|
  {
    if ts == [] then threads else WakeAll(threads[ts[0] := th], ts[1..], th)
  }

  /** ipc_mqueue_changed: wake every receiver waiting on the queue with `error`. */
  function Changed(s: State, q: QueueId, error: RcvError): State
    requires q in s.queues
  {
    var ts := s.queues[q].threads;
    SetMqueue(s, q, s.queues[q].(threads := [])).(threads := WakeAll(s.threads, ts, RcvFailed(error)))
  }

  // ---------------------------------------------------------------- send

  /** ipc_mqueue_send below the limit test: count the message in and find it a place. */
  function Accept(s: State, t: nat, k: Kmsg): State
    requires k.dest in s.ports && Current(s, k.dest) in s.queues
  {
    if k.circular then Leave(s, t) else Offer(CountedIn(Leave(s, t), k), Current(s, k.dest), k)
  }

  /** `port->ip_msgcount++`, recorded in the history of the port. */
  function CountedIn(s: State, k: Kmsg): State
    requires k.dest in s.ports
  {
    var port := s.ports[k.dest];
    SetPort(s, k.dest, port.(msgcount := port.msgcount + 1, accepted := port.accepted + [k]))
  }

  predicate HasRoom(s: State, k: Kmsg)
    requires k.dest in s.ports
  {
    s.ports[k.dest].msgcount < s.ports[k.dest].qlimit || k.forced
  }

  /** One turn of the loop in ipc_mqueue_send, from the limit test to delivery, time-out or block. */
  function TrySend(s: State, t: nat, k: Kmsg, timed: bool, now: bool): State
    requires k.dest in s.ports && Current(s, k.dest) in s.queues
  {
    if HasRoom(s, k) then Accept(s, t, k)
    else if timed && now then Leave(s, t)
    else
      var port := s.ports[k.dest];
      SetPort(SetThread(s, t, SendBlocked(k, timed)), k.dest, port.(blocked := [t] + port.blocked))
  }

  function Unblock(s: State, t: nat, p: nat): State
    requires p in s.ports
  {
    SetPort(Leave(s, t), p, s.ports[p].(blocked := Without(s.ports[p].blocked, t)))
  }

  // ---------------------------------------------------------------- receive

  /** One turn of the loop in ipc_mqueue_receive: take the first message, or block. */
  function TryReceive(s: State, t: nat, q: QueueId, maxSize: nat, timed: bool, now: bool): State
    requires q in s.queues
    requires forall k <- s.queues[q].messages :: k.dest in s.ports
  {
    var mq := s.queues[q];
    if mq.messages != [] then
      var k := mq.messages[0];
      if k.size > maxSize then Leave(s, t)
      else
        var port := s.ports[k.dest];
        SetPort(SetThread(SetMqueue(s, q, mq.(messages := mq.messages[1..])), t,
          RcvHolding(k, port.seqno, |port.taken|)),
                k.dest, TakeSeqno(port, k))
    else if timed && now then Leave(s, t)
    else SetThread(SetMqueue(s, q, mq.(threads := [t] + mq.threads)), t, RcvBlocked(q, maxSize, timed))
  }

  function Unwait(s: State, t: nat, q: QueueId): State
    requires q in s.queues
  {
    Leave(SetMqueue(s, q, s.queues[q].(threads := Without(s.queues[q].threads, t))), t)
  }

  /** Wakes the most recently blocked sender. */
  function WakeSender(s: State, p: nat): State
    requires p in s.ports && s.ports[p].blocked != []
  {
    var port := s.ports[p];
    var t := port.blocked[0];
    var s1 := SetPort(s, p, port.(blocked := port.blocked[1..]));
    if t in s.threads && s.threads[t].SendBlocked? then
      SetThread(s1, t, SendWoken(s.threads[t].kmsg, s.threads[t].timed))
    else s1
  }

  /** The second half of ipc_mqueue_receive, under the port lock. */
  function Finish(s: State, t: nat, p: nat): State
    requires p in s.ports && t in s.threads && s.threads[t].RcvHolding?
  {
    var port := s.ports[p];
    var s1 := CountedOut(s, t, p);
    if port.blocked != [] && port.msgcount - 1 < port.qlimit then WakeSender(s1, p) else s1
  }

  /** `port->ip_msgcount--`; the receive is over. */
  function CountedOut(s: State, t: nat, p: nat): State
    requires p in s.ports && t in s.threads && s.threads[t].RcvHolding?
  {
    var port := s.ports[p];
    SetPort(Leave(s, t), p, port.(msgcount := port.msgcount - 1, done := port.done + {s.threads[t].ticket}))
  }

  // ---------------------------------------------------------------- port sets and limits

  /** ipc_pset_add: the port's messages move to the set, its own receivers are told. */
  function AddToSet(s: State, p: nat, n: nat): State
    requires p in s.ports && PortQueue(p) in s.queues && SetQueue(n) in s.queues
  {
    var s1 := SetPort(s, p, s.ports[p].(pset := Some(n)));
    var s2 := Move(s1, SetQueue(n), PortQueue(p), p);
    OfferAllKeeps(SetMqueue(s1, PortQueue(p),
      s1.queues[PortQueue(p)].(messages := NotFor(s1.queues[PortQueue(p)].messages, p))),
                  SetQueue(n), For(s1.queues[PortQueue(p)].messages, p), p);
    Changed(s2, PortQueue(p), PortChanged)
  }

  lemma OfferAllKeeps(s: State, q: QueueId, ks: seq<Kmsg>, p: nat)
    requires q in s.queues && p in s.ports
    requires forall k <- ks :: k.dest == p
    ensures var r := OfferAll(s, q, ks, p);
      && r.queues.Keys == s.queues.Keys && r.ports.Keys == s.ports.Keys
      && r.activeSets == s.activeSets
      && (forall q' | q' in s.queues && q' != q :: r.queues[q'] == s.queues[q'])
    decreases |ks|
  {
    if ks != [] {
      OfferKeeps(s, q, ks[0]);
      OfferAllKeeps(Offer(s, q, ks[0]), q, ks[1..], p);
    }
  }

  /** ipc_pset_remove: the port's messages move back to its own queue. */
  function RemoveFromSet(s: State, p: nat): State
    requires p in s.ports && s.ports[p].pset.Some?
    requires PortQueue(p) in s.queues && SetQueue(s.ports[p].pset.value) in s.queues
  {
    var n := s.ports[p].pset.value;
    Move(SetPort(s, p, s.ports[p].(pset := None)), PortQueue(p), SetQueue(n), p)
  }

  /** The loop of ipc_port_set_qlimit: wake up to `n` blocked senders. */
  function WakeSome(s: State, p: nat, n: nat): (r: State)
    requires p in s.ports
    ensures p in r.ports
    decreases n
  {
    if n == 0 || s.ports[p].blocked == [] then s else WakeSome(WakeSender(s, p), p, n - 1)
  }

  /** How many senders a new limit lets in: the difference, if it is larger. */
  function ExtraRoom(s: State, p: nat, qlimit: nat): nat
    requires p in s.ports
  {
    if qlimit > s.ports[p].qlimit then qlimit - s.ports[p].qlimit else 0
  }

  function ChangeQlimit(s: State, p: nat, qlimit: nat): State
    requires p in s.ports
  {
    Limited(WakeSome(s, p, ExtraRoom(s, p, qlimit)), p, qlimit)
  }

  function Limited(s: State, p: nat, qlimit: nat): State
    requires p in s.ports
  {
    SetPort(s, p, s.ports[p].(qlimit := qlimit, peak := if qlimit > s.ports[p].peak then qlimit else s.ports[p].peak))
  }

  lemma WakeSomeKeeps(s: State, p: nat, n: nat)
    requires p in s.ports
    ensures var r := WakeSome(s, p, n);
      && r.queues == s.queues && r.ports.Keys == s.ports.Keys && r.activeSets == s.activeSets
      && r.ports[p] == s.ports[p].(blocked := r.ports[p].blocked)
      && (forall p' | p' in s.ports && p' != p :: r.ports[p'] == s.ports[p'])
    decreases n
  {
    if n != 0 && s.ports[p].blocked != [] {
      WakeSomeKeeps(WakeSender(s, p), p, n - 1);
    }
  }

  // ---------------------------------------------------------------- the transition function

  /** The queues a state must have, so that its events can be applied. */
  predicate Shaped(s: State) {
    && (forall p | p in s.ports :: PortQueue(p) in s.queues && Current(s, p) in s.queues)
    && (forall q | q in s.queues :: forall k <- s.queues[q].messages :: k.dest in s.ports)
  }

  /** Whether the thread or port is in a position to perform the event. */
  predicate Enabled(s: State, e: Event)
    requires Shaped(s)
  {
    match e
    case Send(t, k, _, _) => t !in s.threads && k.dest in s.ports
    case SendResume(t) => t in s.threads && s.threads[t].SendWoken? && s.threads[t].kmsg.dest in s.ports
    case SendTimeout(t) =>
      t in s.threads && s.threads[t].SendBlocked? && s.threads[t].timed && s.threads[t].kmsg.dest in s.ports
    case SendInterrupt(t) => t in s.threads && s.threads[t].SendBlocked? && s.threads[t].kmsg.dest in s.ports
    case Receive(t, q, _, _, _) =>
      // ipc_mqueue_copyin: MACH_RCV_IN_SET for a member port, and the set must be alive
      && t !in s.threads && q in s.queues
      && (match q
          case PortQueue(p) => p in s.ports && s.ports[p].pset.None?
          case SetQueue(n) => n in s.activeSets)
    case ReceiveResume(t) => t in s.threads && (s.threads[t].RcvHanded? || s.threads[t].RcvFailed?)
    case ReceiveTimeout(t) =>
      t in s.threads && s.threads[t].RcvBlocked? && s.threads[t].timed && s.threads[t].queue in s.queues
    case ReceiveInterrupt(t) => t in s.threads && s.threads[t].RcvBlocked? && s.threads[t].queue in s.queues
    case ReceiveFinish(t) => t in s.threads && s.threads[t].RcvHolding? && s.threads[t].kmsg.dest in s.ports
    case SetAdd(p, n) => p in s.ports && s.ports[p].pset.None? && n in s.activeSets && SetQueue(n) in s.queues
    case SetRemove(p) => p in s.ports && s.ports[p].pset.Some?
    case SetDestroy(n) => n in s.activeSets && SetQueue(n) in s.queues
    case SetQlimit(p, _) => p in s.ports
  }

  function Apply(s: State, e: Event): State
    requires Shaped(s)
  {
    if !Enabled(s, e) then s
    else
      match e
      case Send(t, k, timed, now) => TrySend(s, t, k, timed, now)
      case SendResume(t) => TrySend(s, t, s.threads[t].kmsg, s.threads[t].timed, false)
      case SendTimeout(t) =>
        // time_out = 0, and round the loop again without giving up the lock
        var k := s.threads[t].kmsg;
        TrySend(Unblock(s, t, k.dest), t, k, true, true)
      case SendInterrupt(t) => Unblock(s, t, s.threads[t].kmsg.dest)
      case Receive(t, q, maxSize, timed, now) => TryReceive(s, t, q, maxSize, timed, now)
      case ReceiveResume(t) =>
        (match s.threads[t]
         case RcvHanded(k, seqno, ticket) => SetThread(s, t, RcvHolding(k, seqno, ticket))
         case _ => Leave(s, t))
      case ReceiveTimeout(t) =>
        var th := s.threads[t];
        TryReceive(Unwait(s, t, th.queue), t, th.queue, th.msize, true, true)
      case ReceiveInterrupt(t) => Unwait(s, t, s.threads[t].queue)
      case ReceiveFinish(t) => Finish(s, t, s.threads[t].kmsg.dest)
      case SetAdd(p, n) => AddToSet(s, p, n)
      case SetRemove(p) => RemoveFromSet(s, p)
      case SetDestroy(n) => Changed(s.(activeSets := s.activeSets - {n}), SetQueue(n), PortDied)
      case SetQlimit(p, qlimit) => ChangeQlimit(s, p, qlimit)
  }
}
