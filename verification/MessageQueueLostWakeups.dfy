/**
  * When a wake-up is lost: circular messages are dropped by ipc_mqueue_send without being counted, so a sender
  * of one that was woken for a free place neither takes the place nor wakes another (ipc/ipc_mqueue.c).
  */
module MessageQueueLostWakeups {
  import opened Options
  import opened MessageQueue
  import opened MessageQueueInvariant
  import opened MessageQueueSteps
  import opened MessageQueueWakeups
  import opened MessageQueueDelivery
  import opened MessageQueueRuns

  // ---------------------------------------------------------------- a run that loses a wake-up

  function Plain(p: nat): Kmsg { Kmsg(0, p, 0, false, false) }
  function Circular(p: nat): Kmsg { Kmsg(1, p, 0, false, true) }

  function Repeat<T>(x: T, n: nat): seq<T> { seq(n, _ => x) }

  /** A port by itself, among any others: its counts, its blocked senders, `m` messages queued; and all threads. */
  ghost predicate View(s: State, p: nat, q: nat, n: int, m: nat, blocked: seq<nat>, threads: map<nat, Thread>) {
    && Shaped(s) && p in s.ports && PortQueue(p) in s.queues && s.threads == threads
    && s.ports[p].pset == None && s.ports[p].msgcount == n && s.ports[p].qlimit == q && s.ports[p].blocked == blocked
    && s.queues[PortQueue(p)] == Mqueue(Repeat(Plain(p), m), [])
  }

  /** A port that is in a set is taken out of it first. */
  lemma Detached(s: State, p: nat)
    requires Start(s) && p in s.ports
    ensures View(Step(s, SetRemove(p)), p, s.ports[p].qlimit, 0, 0, [], map[])
  {
    StartStructured(s);
    assert Repeat(Plain(p), 0) == [];
    if s.ports[p].pset.Some? {
      var n := s.ports[p].pset.value;
      assert s.queues[SetQueue(n)] == Mqueue([], []);
    }
  }

  lemma Sent(s: State, p: nat, q: nat, n: nat)
    requires View(s, p, q, n, n, [], map[]) && n < q
    ensures View(Step(s, Send(0, Plain(p), false, false)), p, q, n + 1, n + 1, [], map[])
  {
    assert Repeat(Plain(p), n) + [Plain(p)] == Repeat(Plain(p), n + 1);
    assert s.threads - {0} == map[];
  }

  lemma {:induction false} Filled(s: State, p: nat, q: nat, n: nat)
    requires View(s, p, q, 0, 0, [], map[]) && n <= q
    ensures View(Run(s, Repeat(Send(0, Plain(p), false, false), n)), p, q, n, n, [], map[])
    decreases n
  {
    var e := Send(0, Plain(p), false, false);
    if n == 0 {
      assert Repeat(e, 0) == [];
    } else {
      Filled(s, p, q, n - 1);
      assert Repeat(e, n) == Repeat(e, n - 1) + [e];
      RunConcat(s, Repeat(e, n - 1), [e]);
      var t := Run(s, Repeat(e, n - 1));
      Sent(t, p, q, n - 1);
      assert Run(t, [e]) == Step(t, e);
    }
  }

  lemma Blocked(s: State, p: nat, q: nat, blocked: seq<nat>, threads: map<nat, Thread>, t: nat, k: Kmsg)
    requires View(s, p, q, q, q, blocked, threads) && t !in threads && k.dest == p && !k.forced
    ensures View(Step(s, Send(t, k, false, false)), p, q, q, q, [t] + blocked, threads[t := SendBlocked(k, false)])
  {}

  lemma Received(s: State, p: nat, q: nat, blocked: seq<nat>, threads: map<nat, Thread>)
    requires View(s, p, q, q, q, blocked, threads) && 0 !in threads && q > 0
    ensures var r := Step(s, Receive(0, PortQueue(p), 0, false, false));
      && 0 in r.threads && r.threads[0].RcvHolding? && r.threads[0].kmsg.dest == p
      && View(r, p, q, q, q - 1, blocked, threads[0 := r.threads[0]])
  {
    assert Repeat(Plain(p), q)[0] == Plain(p);
    assert Repeat(Plain(p), q)[1..] == Repeat(Plain(p), q - 1);
  }

  /** The end of a receive wakes the sender that blocked last. */
  lemma Finished(s: State, p: nat, q: nat, rest: seq<nat>, threads: map<nat, Thread>, t: nat, k: Kmsg)
    requires 0 in s.threads && s.threads[0].RcvHolding? && s.threads[0].kmsg.dest == p && q > 0
    requires View(s, p, q, q, q - 1, [t] + rest, threads[0 := s.threads[0]])
    requires 0 !in threads && t in threads && threads[t] == SendBlocked(k, false)
    ensures View(Step(s, ReceiveFinish(0)), p, q, q - 1, q - 1, rest, threads[t := SendWoken(k, false)])
  {
    assert ([t] + rest)[1..] == rest;
    assert threads[0 := s.threads[0]] - {0} == threads;
  }

  /** A circular message is not counted and nobody is woken in its stead. */
  lemma CircularDropped(s: State, p: nat, q: nat, n: int, m: nat, blocked: seq<nat>, threads: map<nat, Thread>, t: nat)
    requires View(s, p, q, n, m, blocked, threads) && n < q && t in threads
      && threads[t] == SendWoken(Circular(p), false)
    ensures View(Step(s, SendResume(t)), p, q, n, m, blocked, threads - {t})
  {}

  /** Fill the port, block a plain and a circular sender, receive once, resume the circular one. */
  function LosingRun(p: nat, q: nat): seq<Event> {
    [SetRemove(p)] + Repeat(Send(0, Plain(p), false, false), q)
    + [Send(1, Plain(p), false, false), Send(2, Circular(p), false, false)]
    + [Receive(0, PortQueue(p), 0, false, false), ReceiveFinish(0)]
    + [SendResume(2)]
  }

  lemma RunTwo(s: State, a: Event, b: Event)
    ensures Run(s, [a, b]) == Step(Step(s, a), b)
  {
    assert [a, b][1..] == [b];
    assert Run(Step(s, a), [b]) == Run(Step(Step(s, a), b), []);
  }

  lemma RunOne(s: State, a: Event)
    ensures Run(s, [a]) == Step(s, a)
  {
    assert Run(s, [a]) == Run(Step(s, a), []);
  }

  lemma LosingStages(s: State, p: nat, q: nat)
    ensures var s1 := Run(Step(s, SetRemove(p)), Repeat(Send(0, Plain(p), false, false), q));
      var s2 := Step(Step(s1, Send(1, Plain(p), false, false)), Send(2, Circular(p), false, false));
      var s3 := Step(Step(s2, Receive(0, PortQueue(p), 0, false, false)), ReceiveFinish(0));
      Run(s, LosingRun(p, q)) == Step(s3, SendResume(2))
  {
    var a := [SetRemove(p)];
    var b := Repeat(Send(0, Plain(p), false, false), q);
    var c := [Send(1, Plain(p), false, false), Send(2, Circular(p), false, false)];
    var d := [Receive(0, PortQueue(p), 0, false, false), ReceiveFinish(0)];
    RunConcat(s, a + b + c + d, [SendResume(2)]);
    RunConcat(s, a + b + c, d);
    RunConcat(s, a + b, c);
    RunConcat(s, a, b);
    RunOne(s, SetRemove(p));
    RunTwo(Run(s, a + b), c[0], c[1]);
    RunTwo(Run(s, a + b + c), d[0], d[1]);
    RunOne(Run(s, a + b + c + d), SendResume(2));
  }

  lemma Crowded(s: State, p: nat, q: nat)
    requires View(s, p, q, q, q, [], map[])
    ensures var r := Step(Step(s, Send(1, Plain(p), false, false)), Send(2, Circular(p), false, false));
      View(r, p, q, q, q, [2, 1], map[1 := SendBlocked(Plain(p), false), 2 := SendBlocked(Circular(p), false)])
  {
    var s1 := Step(s, Send(1, Plain(p), false, false));
    Blocked(s, p, q, [], map[], 1, Plain(p));
    assert [1] + [] == [1];
    Blocked(s1, p, q, [1], map[1 := SendBlocked(Plain(p), false)], 2, Circular(p));
    assert [2] + [1] == [2, 1];
  }

  lemma Emptier(s: State, p: nat, q: nat)
    requires View(s, p, q, q, q, [2, 1],
      map[1 := SendBlocked(Plain(p), false), 2 := SendBlocked(Circular(p), false)]) && q > 0
    ensures var r := Step(Step(s, Receive(0, PortQueue(p), 0, false, false)), ReceiveFinish(0));
      View(r, p, q, q - 1, q - 1, [1], map[1 := SendBlocked(Plain(p), false), 2 := SendWoken(Circular(p), false)])
  {
    var threads := map[1 := SendBlocked(Plain(p), false), 2 := SendBlocked(Circular(p), false)];
    Received(s, p, q, [2, 1], threads);
    assert [2] + [1] == [2, 1];
    Finished(Step(s, Receive(0, PortQueue(p), 0, false, false)), p, q, [1], threads, 2, Circular(p));
    assert threads[2 := SendWoken(Circular(p), false)]
        == map[1 := SendBlocked(Plain(p), false), 2 := SendWoken(Circular(p), false)];
  }

  ghost predicate Lost(r: State, p: nat) {
    && p in r.ports && r.ports[p].blocked == [1] && r.ports[p].msgcount < r.ports[p].qlimit
    && Count(r.threads, p, Woken) == 0 && !AllCovered(r)
  }

  /** The circular sender resumes, and is gone. */
  lemma Deserted(s: State, p: nat, q: nat)
    requires q > 0
    requires var threads := map[1 := SendBlocked(Plain(p), false), 2 := SendWoken(Circular(p), false)];
      View(s, p, q, q - 1, q - 1, [1], threads)
    ensures Lost(Step(s, SendResume(2)), p)
  {
    var threads := map[1 := SendBlocked(Plain(p), false), 2 := SendWoken(Circular(p), false)];
    CircularDropped(s, p, q, q - 1, q - 1, [1], threads, 2);
    var r := Step(s, SendResume(2));
    assert r.threads == threads - {2} == map[1 := SendBlocked(Plain(p), false)];
    assert Players(r.threads, p, Woken) == {};
    assert !Covered(r, p);
  }

  /**
    * With circular messages the property fails at every port with a limit above zero, whatever other ports
    * and sets there are: the port has room and a blocked sender, and nobody is on the way.
    */
  lemma CircularLosesWakeup(s: State, p: nat)
    requires Start(s) && p in s.ports && s.ports[p].qlimit > 0
    ensures Lost(Run(s, LosingRun(p, s.ports[p].qlimit)), p)
  {
    var q := s.ports[p].qlimit;
    var s0 := Step(s, SetRemove(p));
    Detached(s, p);
    Filled(s0, p, q, q);
    var s1 := Run(s0, Repeat(Send(0, Plain(p), false, false), q));
    Crowded(s1, p, q);
    var s2 := Step(Step(s1, Send(1, Plain(p), false, false)), Send(2, Circular(p), false, false));
    Emptier(s2, p, q);
    var s3 := Step(Step(s2, Receive(0, PortQueue(p), 0, false, false)), ReceiveFinish(0));
    LosingStages(s, p, q);
    Deserted(s3, p, q);
  }

  // ---------------------------------------------------------------- exactly when none is lost

  lemma ZeroLimitCovered(s: State)
    requires Core(s, 0, []) && forall p | p in s.ports :: s.ports[p].qlimit == 0
    ensures AllCovered(s)
  {
    forall p | p in s.ports ensures Covered(s, p) {
      assert Counted(s, p, TransitOf(p, 0, []));
    }
  }

  lemma ZeroLimitRun(s: State, es: seq<Event>)
    requires Start(s) && LimitsFixed(es) && forall p | p in s.ports :: s.ports[p].qlimit == 0
    ensures AllCovered(Run(s, es))
  {
    StartGood(s);
    RunGood(s, es);
    RunLimits(s, es);
    ZeroLimitCovered(Run(s, es));
  }

  lemma LosingRunFixed(p: nat, q: nat)
    ensures LimitsFixed(LosingRun(p, q))
  {}

  /**
    * While limits stay fixed, and whatever ports and sets there are, every run is free of lost wake-ups
    * exactly when circular messages are kept out or no port lets a message wait.
    */
  lemma NoLostWakeupIff(s: State, circularAllowed: bool)
    requires Start(s)
    ensures (forall es: seq<Event> | LimitsFixed(es) && (circularAllowed || SendsNoCircular(es)) ::
      AllCovered(Run(s, es)))
            <==> (!circularAllowed || forall p | p in s.ports :: s.ports[p].qlimit == 0)
  {
    if p :| circularAllowed && p in s.ports && s.ports[p].qlimit > 0 {
      CircularLosesWakeup(s, p);
      LosingRunFixed(p, s.ports[p].qlimit);
    } else {
      forall es: seq<Event> | LimitsFixed(es)
        && (circularAllowed || SendsNoCircular(es)) ensures AllCovered(Run(s, es)) {
        if SendsNoCircular(es) {
          StartGood(s);
          RunCovered(s, es);
        } else {
          ZeroLimitRun(s, es);
        }
      }
    }
  }
}
