/**
 The routines of ipc/ipc_mqueue.c as they update the kernel's tables in place, each proved
 to compute the transition of module MessageQueue.
 */
module MessageQueueKernel {

  import opened Options
  import opened MessageQueue
  import opened MessageQueueInvariant
  import opened MessageQueueSteps

  // ---------------------------------------------------------------- about the transitions

  lemma OfferAllAppend(s: State, q: QueueId, ks: seq<Kmsg>, k: Kmsg, p: nat)
    requires q in s.queues && p in s.ports && k.dest == p && forall k' <- ks :: k'.dest == p
    ensures q in OfferAll(s, q, ks, p).queues && p in OfferAll(s, q, ks, p).ports
    ensures OfferAll(s, q, ks + [k], p) == Offer(OfferAll(s, q, ks, p), q, k)
    decreases |ks|
  {
    OfferAllKeeps(s, q, ks, p);
    if ks == [] {
      assert [] + [k] == [k];
      OfferKeeps(s, q, k);
    } else {
      OfferKeeps(s, q, ks[0]);
      assert (ks + [k])[1..] == ks[1..] + [k];
      OfferAllAppend(Offer(s, q, ks[0]), q, ks[1..], k, p);
    }
  }

  /** Placing messages in one queue does not depend on what another queue holds. */
  lemma OfferElsewhere(s: State, q: QueueId, k: Kmsg, q': QueueId, mq: Mqueue)
    requires q in s.queues && k.dest in s.ports && q' != q && q' in s.queues
    ensures Offer(SetMqueue(s, q', mq), q, k) == SetMqueue(Offer(s, q, k), q', mq)
    decreases |s.queues[q].threads|
  {
    var s' := SetMqueue(s, q', mq);
    var ts := s.queues[q].threads;
    if ts == [] {
      assert Enqueue(s', q, k).queues == SetMqueue(Enqueue(s, q, k), q', mq).queues;
    } else {
      assert PopThread(s', q).queues == SetMqueue(PopThread(s, q), q', mq).queues;
      if k.size > Msize(s, ts[0]) {
        OfferElsewhere(SetThread(PopThread(s, q), ts[0], RcvFailed(TooLarge(k.size))), q, k, q', mq);
      }
    }
  }

  lemma OfferAllElsewhere(s: State, q: QueueId, ks: seq<Kmsg>, p: nat, q': QueueId, mq: Mqueue)
    requires q in s.queues && p in s.ports && q' != q && q' in s.queues && forall k <- ks :: k.dest == p
    ensures OfferAll(SetMqueue(s, q', mq), q, ks, p) == SetMqueue(OfferAll(s, q, ks, p), q', mq)
    decreases |ks|
  {
    if ks != [] {
      OfferKeeps(s, q, ks[0]);
      OfferElsewhere(s, q, ks[0], q', mq);
      OfferAllElsewhere(Offer(s, q, ks[0]), q, ks[1..], p, q', mq);
    }
  }

  lemma ForAppend(ks: seq<Kmsg>, k: Kmsg, p: nat)
    ensures For(ks + [k], p) == For(ks, p) + (if k.dest == p then [k] else [])
    ensures NotFor(ks + [k], p) == NotFor(ks, p) + (if k.dest == p then [] else [k])
  {
    if ks == [] {
      assert ks + [k] == [k];
      assert [k][1..] == [];
    } else {
      assert (ks + [k])[1..] == ks[1..] + [k];
      ForAppend(ks[1..], k, p);
    }
  }

  lemma SetTwice(s: State, q: QueueId, a: Mqueue, b: Mqueue)
    ensures SetMqueue(SetMqueue(s, q, a), q, b) == SetMqueue(s, q, b)
  {
    assert s.queues[q := a][q := b] == s.queues[q := b];
  }

  /** The state of ipc_mqueue_move after the first `j` messages of the source queue. */
  ghost function Moving(s: State, dest: QueueId, source: QueueId, p: nat, j: nat): State
    requires dest in s.queues && source in s.queues && dest != source && p in s.ports
    requires j <= |s.queues[source].messages|
  {
    var ks := s.queues[source].messages;
    SetMqueue(OfferAll(s, dest, For(ks[..j], p), p), source,
              s.queues[source].(messages := NotFor(ks[..j], p) + ks[j..]))
  }

  lemma MovingStart(s: State, dest: QueueId, source: QueueId, p: nat)
    requires dest in s.queues && source in s.queues && dest != source && p in s.ports
    ensures Moving(s, dest, source, p, 0) == s
  {
    var ks := s.queues[source].messages;
    assert ks[..0] == [] && [] + ks[0..] == ks;
    assert s.queues[source := s.queues[source].(messages := ks)] == s.queues;
  }

  lemma MovingEnd(s: State, dest: QueueId, source: QueueId, p: nat)
    requires dest in s.queues && source in s.queues && dest != source && p in s.ports
    ensures Moving(s, dest, source, p, |s.queues[source].messages|) == Move(s, dest, source, p)
  {
    var ks := s.queues[source].messages;
    assert ks[..|ks|] == ks && NotFor(ks, p) + ks[|ks|..] == NotFor(ks, p);
    OfferAllElsewhere(s, dest, For(ks, p), p, source, s.queues[source].(messages := NotFor(ks, p)));
  }

  lemma MovingSkip(s: State, dest: QueueId, source: QueueId, p: nat, j: nat)
    requires dest in s.queues && source in s.queues && dest != source && p in s.ports
    requires j < |s.queues[source].messages| && s.queues[source].messages[j].dest != p
    ensures Moving(s, dest, source, p, j + 1) == Moving(s, dest, source, p, j)
  {
    var ks := s.queues[source].messages;
    assert ks[..j + 1] == ks[..j] + [ks[j]];
    ForAppend(ks[..j], ks[j], p);
    assert For(ks[..j], p) + [] == For(ks[..j], p);
    assert (NotFor(ks[..j], p) + [ks[j]]) + ks[j + 1..] == NotFor(ks[..j], p) + ks[j..];
  }

  /** The state after message `i` has been unlinked from a queue. */
  function Unlink(s: State, source: QueueId, i: nat): State
    requires source in s.queues && i < |s.queues[source].messages|
  {
    var mq := s.queues[source];
    SetMqueue(s, source, mq.(messages := mq.messages[..i] + mq.messages[i + 1..]))
  }

  lemma MovingUnlink(s: State, dest: QueueId, source: QueueId, p: nat, j: nat)
    requires dest in s.queues && source in s.queues && dest != source && p in s.ports
    requires j < |s.queues[source].messages|
    ensures var ks := s.queues[source].messages;
      var i := |NotFor(ks[..j], p)|;
      && source in Moving(s, dest, source, p, j).queues && i < |Moving(s, dest, source, p, j).queues[source].messages|
      && Unlink(Moving(s, dest, source, p, j), source, i)
         == SetMqueue(OfferAll(s, dest, For(ks[..j], p), p), source,
           s.queues[source].(messages := NotFor(ks[..j], p) + ks[j + 1..]))
  {
    var ks := s.queues[source].messages;
    var kept := NotFor(ks[..j], p);
    var now := kept + ks[j..];
    assert now[..|kept|] + now[|kept| + 1..] == kept + ks[j + 1..];
    SetTwice(OfferAll(s, dest, For(ks[..j], p), p), source, s.queues[source].(messages := now),
             s.queues[source].(messages := kept + ks[j + 1..]));
  }

  /** Unlinking message `j` and offering it to the destination. */
  lemma MovingTake(s: State, dest: QueueId, source: QueueId, p: nat, j: nat)
    requires dest in s.queues && source in s.queues && dest != source && p in s.ports
    requires j < |s.queues[source].messages| && s.queues[source].messages[j].dest == p
    ensures var ks := s.queues[source].messages;
      var i := |NotFor(ks[..j], p)|;
      var m := Moving(s, dest, source, p, j);
      && source in m.queues && i < |m.queues[source].messages| && m.queues[source].messages[i] == ks[j]
      && dest in m.queues && p in m.ports
      && Moving(s, dest, source, p, j + 1) == Offer(Unlink(m, source, i), dest, ks[j])
  {
    var ks := s.queues[source].messages;
    var mq := s.queues[source].(messages := NotFor(ks[..j], p) + ks[j + 1..]);
    assert ks[..j + 1] == ks[..j] + [ks[j]];
    ForAppend(ks[..j], ks[j], p);
    assert NotFor(ks[..j], p) + [] == NotFor(ks[..j], p);
    OfferAllKeeps(s, dest, For(ks[..j], p), p);
    OfferAllAppend(s, dest, For(ks[..j], p), ks[j], p);
    OfferElsewhere(OfferAll(s, dest, For(ks[..j], p), p), dest, ks[j], source, mq);
    MovingUnlink(s, dest, source, p, j);
  }

  lemma KeptAppend(ks: seq<Kmsg>, j: nat, p: nat)
    requires j < |ks|
    ensures NotFor(ks[..j + 1], p) == NotFor(ks[..j], p) + (if ks[j].dest == p then [] else [ks[j]])
    ensures (NotFor(ks[..j], p) + ks[j..])[|NotFor(ks[..j], p)|] == ks[j]
  {
    assert ks[..j + 1] == ks[..j] + [ks[j]];
    ForAppend(ks[..j], ks[j], p);
  }

  /** ipc_mqueue_move has dealt with `j` messages and stands before message `i` of the rest. */
  ghost predicate Progress(s: State, now: State, dest: QueueId, source: QueueId, p: nat, j: nat, i: nat) {
    && dest in s.queues && source in s.queues && dest != source && p in s.ports
    && dest in now.queues && source in now.queues && p in now.ports
    && j <= |s.queues[source].messages|
    && now == Moving(s, dest, source, p, j)
    && i == |NotFor(s.queues[source].messages[..j], p)|
  }

  lemma ProgressStart(s: State, dest: QueueId, source: QueueId, p: nat)
    requires dest in s.queues && source in s.queues && dest != source && p in s.ports
    ensures Progress(s, s, dest, source, p, 0, 0)
  {
    MovingStart(s, dest, source, p);
  }

  lemma ProgressNext(s: State, now: State, dest: QueueId, source: QueueId, p: nat, j: nat, i: nat)
    requires Progress(s, now, dest, source, p, j, i) && i < |now.queues[source].messages|
    ensures j < |s.queues[source].messages|
    ensures var k := now.queues[source].messages[i];
      if k.dest != p then Progress(s, now, dest, source, p, j + 1, i + 1)
      else Progress(s, Offer(Unlink(now, source, i), dest, k), dest, source, p, j + 1, i)
  {
    var ks := s.queues[source].messages;
    MovingSource(s, dest, source, p, j);
    assert j < |ks|;
    KeptAppend(ks, j, p);
    if ks[j].dest != p {
      MovingSkip(s, dest, source, p, j);
    } else {
      MovingTake(s, dest, source, p, j);
      MovingSource(s, dest, source, p, j + 1);
    }
  }

  lemma ProgressEnd(s: State, now: State, dest: QueueId, source: QueueId, p: nat, j: nat, i: nat)
    requires Progress(s, now, dest, source, p, j, i) && i >= |now.queues[source].messages|
    ensures now == Move(s, dest, source, p)
  {
    MovingSource(s, dest, source, p, j);
    MovingEnd(s, dest, source, p);
  }

  // ---------------------------------------------------------------- the routines

  class Kernel {
    var ports: map<nat, Port>
    var queues: map<QueueId, Mqueue>
    var activeSets: set<nat>
    var threads: map<nat, Thread>

    ghost function View(): State
      reads this
    {
      State(ports, queues, activeSets, threads)
    }

    /** The loop over waiting receivers, shared by ipc_mqueue_send and ipc_mqueue_move. */
    method OfferMessage(q: QueueId, kmsg: Kmsg)
      requires q in queues && kmsg.dest in ports
      modifies this
      ensures View() == Offer(old(View()), q, kmsg)
    {
      var placed := false;
      while !placed
        invariant q in queues && kmsg.dest in ports
        invariant if placed then View() == Offer(old(View()), q, kmsg)
                  else Offer(View(), q, kmsg) == Offer(old(View()), q, kmsg)
        decreases |queues[q].threads|, !placed
      {
        var mq := queues[q];
        if mq.threads == [] {
          queues := queues[q := mq.(messages := mq.messages + [kmsg])];
          placed := true;
        } else {
          var receiver := mq.threads[0];
          var msize := if receiver in threads && threads[receiver].RcvBlocked? then threads[receiver].msize else 0;
          queues := queues[q := mq.(threads := mq.threads[1..])];
          if kmsg.size <= msize {
            var port := ports[kmsg.dest];
            threads := threads[receiver := RcvHanded(kmsg, port.seqno, |port.taken|)];
            ports := ports[kmsg.dest := TakeSeqno(port, kmsg)];
            placed := true;
          } else {
            threads := threads[receiver := RcvFailed(TooLarge(kmsg.size))];
          }
        }
      }
    }

    /** Unlinks message `i` of `source` and finds it a place in `dest`. */
    method MoveOne(dest: QueueId, source: QueueId, i: nat)
      requires dest in queues && source in queues && dest != source
      requires i < |queues[source].messages| && queues[source].messages[i].dest in ports
      modifies this
      ensures View() == Offer(Unlink(old(View()), source, i), dest, old(queues[source].messages[i]))
    {
      var mq := queues[source];
      queues := queues[source := mq.(messages := mq.messages[..i] + mq.messages[i + 1..])];
      OfferMessage(dest, mq.messages[i]);
    }

    /** ipc_mqueue_move. */
    method MoveMessages(dest: QueueId, source: QueueId, p: nat)
      requires dest in queues && source in queues && dest != source && p in ports
      modifies this
      ensures View() == Move(old(View()), dest, source, p)
    {
      ghost var s := View();
      ghost var j := 0;
      var i := 0;
      ProgressStart(s, dest, source, p);
      while i < |queues[source].messages|
        invariant Progress(s, View(), dest, source, p, j, i)
        decreases |s.queues[source].messages| - j
      {
        ProgressNext(s, View(), dest, source, p, j, i);
        if queues[source].messages[i].dest != p {
          i := i + 1;
        } else {
          MoveOne(dest, source, i);
        }
        j := j + 1;
      }
      ProgressEnd(s, View(), dest, source, p, j, i);
    }

    /** ipc_mqueue_changed. */
    method WakeReceivers(q: QueueId, mr: RcvError)
      requires q in queues
      modifies this
      ensures View() == Changed(old(View()), q, mr)
    {
      ChangedUnfold(View(), q, mr);
      while queues[q].threads != []
        invariant q in queues
        invariant Changed(View(), q, mr) == Changed(old(View()), q, mr)
        decreases |queues[q].threads|
      {
        ChangedUnfold(View(), q, mr);
        var th := queues[q].threads[0];
        queues := queues[q := queues[q].(threads := queues[q].threads[1..])];
        threads := threads[th := RcvFailed(mr)];
      }
      ChangedUnfold(View(), q, mr);
    }

    /** One turn of the loop of ipc_mqueue_send: limit test, then deliver, give up or block. */
    method SendTurn(self: nat, kmsg: Kmsg, timed: bool, now: bool)
      requires Shaped(View()) && kmsg.dest in ports
      modifies this
      ensures View() == TrySend(old(View()), self, kmsg, timed, now)
    {
      var port := ports[kmsg.dest];
      if port.msgcount < port.qlimit || kmsg.forced {
        threads := threads - {self};
        if kmsg.circular {
          return;
        }
        ports := ports[kmsg.dest := port.(msgcount := port.msgcount + 1, accepted := port.accepted + [kmsg])];
        var mqueue := match port.pset case None => PortQueue(kmsg.dest) case Some(n) => SetQueue(n);
        OfferMessage(mqueue, kmsg);
      } else if timed && now {
        threads := threads - {self};
      } else {
        ports := ports[kmsg.dest := port.(blocked := [self] + port.blocked)];
        threads := threads[self := SendBlocked(kmsg, timed)];
      }
    }

    /** ipc_mqueue_receive from the top of its loop to the unlocking of the queue. */
    method ReceiveTurn(self: nat, q: QueueId, maxSize: nat, timed: bool, now: bool)
      requires Shaped(View()) && q in queues
      modifies this
      ensures View() == TryReceive(old(View()), self, q, maxSize, timed, now)
    {
      var mq := queues[q];
      if mq.messages != [] {
        var kmsg := mq.messages[0];
        assert kmsg in mq.messages;
        if kmsg.size > maxSize {
          threads := threads - {self};
          return;
        }
        queues := queues[q := mq.(messages := mq.messages[1..])];
        var port := ports[kmsg.dest];
        threads := threads[self := RcvHolding(kmsg, port.seqno, |port.taken|)];
        ports := ports[kmsg.dest := TakeSeqno(port, kmsg)];
      } else if timed && now {
        threads := threads - {self};
      } else {
        queues := queues[q := mq.(threads := [self] + mq.threads)];
        threads := threads[self := RcvBlocked(q, maxSize, timed)];
      }
    }

    /** Takes the first sender off the blocked list and lets it run. */
    method WakeFirst(p: nat)
      requires p in ports && ports[p].blocked != []
      requires ports[p].blocked[0] in threads && threads[ports[p].blocked[0]].SendBlocked?
      modifies this
      ensures View() == WakeSender(old(View()), p)
    {
      var sender := ports[p].blocked[0];
      ports := ports[p := ports[p].(blocked := ports[p].blocked[1..])];
      threads := threads[sender := SendWoken(threads[sender].kmsg, threads[sender].timed)];
    }

    /** The second half of ipc_mqueue_receive. */
    method ReceiveEnd(self: nat)
      requires self in threads && threads[self].RcvHolding? && threads[self].kmsg.dest in ports
      requires forall t <- ports[threads[self].kmsg.dest].blocked :: t in threads && threads[t].SendBlocked?
      modifies this
      ensures View() == Finish(old(View()), self, old(threads[self].kmsg.dest))
    {
      var p := threads[self].kmsg.dest;
      var port := ports[p];
      port := port.(msgcount := port.msgcount - 1, done := port.done + {threads[self].ticket});
      threads := threads - {self};
      ports := ports[p := port];
      if port.blocked != [] && port.msgcount < port.qlimit {
        assert port.blocked[0] in port.blocked;
        WakeFirst(p);
      }
    }

    /** ipc_port_set_qlimit. */
    method ChangeLimit(p: nat, qlimit: nat)
      requires Listed(View()) && p in ports
      modifies this
      ensures View() == ChangeQlimit(old(View()), p, qlimit)
    {
      ghost var s := View();
      var wakeup := if qlimit > ports[p].qlimit then qlimit - ports[p].qlimit else 0;
      var i := 0;
      while i < wakeup && ports[p].blocked != []
        invariant 0 <= i <= wakeup && p in ports && Listed(View())
        invariant WakeSome(View(), p, wakeup - i) == WakeSome(s, p, wakeup)
      {
        WakeSenderListed(View(), p);
        WakeSomeNext(View(), p, wakeup - i);
        WakeFirst(p);
        i := i + 1;
      }
      assert WakeSome(View(), p, wakeup - i) == View();
      var peak := if qlimit > ports[p].peak then qlimit else ports[p].peak;
      ports := ports[p := ports[p].(qlimit := qlimit, peak := peak)];
    }
  }

  lemma MovingSource(s: State, dest: QueueId, source: QueueId, p: nat, j: nat)
    requires dest in s.queues && source in s.queues && dest != source && p in s.ports
    requires j <= |s.queues[source].messages|
    ensures var m := Moving(s, dest, source, p, j);
      var ks := s.queues[source].messages;
      && source in m.queues && dest in m.queues && p in m.ports
      && m.queues[source].messages == NotFor(ks[..j], p) + ks[j..]
  {
    OfferAllKeeps(s, dest, For(s.queues[source].messages[..j], p), p);
  }

  lemma WakeSomeNext(s: State, p: nat, n: nat)
    requires p in s.ports && n > 0 && s.ports[p].blocked != []
    ensures WakeSome(s, p, n) == WakeSome(WakeSender(s, p), p, n - 1)
  {}
}
