/** Every interleaving of lookups, references and releases keeps the device table sound. */
module DeviceTableRuns {
  import opened Options
  import opened DeviceTable

  // ---------------------------------------------------------------- what does not change

  /** Every device in the table is still there, under its name. */
  ghost predicate NamesKept(s: State, r: State)
    requires Shape(s) && TableOk(s)
  {
    && r.table == s.table
    && forall i, d {:trigger At(s.table, i, d)} :: At(s.table, i, d) ==>
         d in r.devices && r.devices[d].ops == s.devices[d].ops && r.devices[d].minor == s.devices[d].minor
  }

  lemma TableKept(s: State, r: State)
    requires Shape(s) && TableOk(s) && Shape(r) && NamesKept(s, r)
    ensures TableOk(r)
  {}

  lemma SamePhases(s: State, r: State, x: nat)
    requires r.threads == s.threads
    ensures (Between(r, x) <==> Between(s, x)) && (Private(r, x) <==> Private(s, x))
  {
    forall t, p ensures Doing(r, t, p) <==> Doing(s, t, p) {}
  }

  /** A thread that moved from one phase to another: only the devices of these phases notice. */
  lemma PhasesAfter(s: State, r: State, t: nat, p: Thread, x: nat)
    requires t in s.threads && r.threads == s.threads[t := p] && s.threads[t] != Releasing(x)
      && s.threads[t] != Allocated(x)
    ensures Between(r, x) <==> Between(s, x) || p == Releasing(x)
    ensures Private(r, x) <==> Private(s, x) || p == Allocated(x)
  {
    forall u, q | Doing(s, u, q) && (q == Releasing(x) || q == Allocated(x)) ensures Doing(r, u, q) {}
    assert Doing(r, t, p);
    forall u, q | Doing(r, u, q) && u != t ensures Doing(s, u, q) {}
  }

  lemma ApartAfter(s: State, r: State, t: nat, p: Thread)
    requires Apart(s) && t in s.threads && r.threads == s.threads[t := p]
    requires p.Idle? || p.Allocating? || forall u :: !Doing(s, u, p)
    ensures Apart(r)
  {
    forall u, q | u != t && Doing(r, u, q) ensures Doing(s, u, q) {}
  }

  // ---------------------------------------------------------------- the steps

  lemma ReferencedKeeps(s: State, d: nat)
    requires Inv(s) && d in s.devices && Listed(s, d)
    ensures Inv(Referenced(s, d))
  {
    var r := Referenced(s, d);
    TableKept(s, r);
    forall t, p ensures Doing(r, t, p) <==> Doing(s, t, p) {}
    forall x | x in r.devices ensures CountOk(r, x) {
      assert CountOk(s, x);
      SamePhases(s, r, x);
    }
    forall t | t in r.threads ensures ThreadOk(r, t) {
      assert ThreadOk(s, t);
    }
  }

  lemma LookupKeeps(s: State, t: nat, ops: nat, minor: int)
    requires Inv(s) && Enabled(s, Lookup(t, ops, minor))
    ensures Inv(Apply(s, Lookup(t, ops, minor)))
  {
    match Find(s.table[Hash(minor)], s.devices, ops, minor)
    case Some(d) =>
      assert At(s.table, Hash(minor), d);
      ReferencedKeeps(s, d);
    case None =>
      var r := Put(s, t, Allocating(ops, minor));
      TableKept(s, r);
      ApartAfter(s, r, t, Allocating(ops, minor));
      forall x | x in r.devices ensures CountOk(r, x) {
        assert CountOk(s, x);
        PhasesAfter(s, r, t, Allocating(ops, minor), x);
      }
      forall u | u in r.threads ensures ThreadOk(r, u) {
        assert u != t ==> ThreadOk(s, u);
      }
  }

  lemma FreshUnused(s: State, u: nat)
    requires Inv(s) && u in s.threads
    ensures s.threads[u] != Allocated(s.next) && s.threads[u] != Releasing(s.next)
  {
    assert ThreadOk(s, u);
  }

  lemma AllocateKeeps(s: State, t: nat)
    requires Inv(s) && Enabled(s, Allocate(t))
    ensures Inv(Apply(s, Allocate(t)))
  {
    var r, n := Apply(s, Allocate(t)), s.next;
    TableKept(s, r);
    forall u ensures !Doing(s, u, Allocated(n)) {
      if u in s.threads {
        FreshUnused(s, u);
      }
    }
    ApartAfter(s, r, t, Allocated(n));
    AllocateCounts(s, t);
    forall u | u in r.threads ensures ThreadOk(r, u) {
      if u != t {
        assert ThreadOk(s, u);
      } else {
        assert !At(s.table, Hash(r.devices[n].minor), n);
      }
    }
  }

  lemma AllocateCounts(s: State, t: nat)
    requires Inv(s) && Enabled(s, Allocate(t))
    ensures var r := Apply(s, Allocate(t));
      Shape(r) && forall x {:trigger CountOk(r, x)} :: x in r.devices ==> CountOk(r, x)
  {
    var r, n := Apply(s, Allocate(t)), s.next;
    forall x | x in r.devices ensures CountOk(r, x) {
      PhasesAfter(s, r, t, Allocated(n), x);
      if x != n {
        assert CountOk(s, x);
      } else {
        assert !At(s.table, Hash(r.devices[n].minor), n);
      }
    }
  }

  lemma EnterTable(s: State, t: nat, n: nat)
    requires Inv(s) && n in s.devices
    requires Find(s.table[Hash(s.devices[n].minor)], s.devices, s.devices[n].ops, s.devices[n].minor).None?
    ensures var r := EnterOrDiscard(s, t, n); Shape(r) && TableOk(r)
  {
    var r, h := EnterOrDiscard(s, t, n), Hash(s.devices[n].minor);
    forall i, d ensures At(r.table, i, d) <==> At(s.table, i, d) || (i == h && d == n) {}
  }

  lemma EnterKeeps(s: State, t: nat, n: nat)
    requires Inv(s) && t in s.threads && s.threads[t] == Allocated(n) && n in s.devices
    requires Find(s.table[Hash(s.devices[n].minor)], s.devices, s.devices[n].ops, s.devices[n].minor).None?
    ensures Inv(EnterOrDiscard(s, t, n))
  {
    var r, h := EnterOrDiscard(s, t, n), Hash(s.devices[n].minor);
    EnterTable(s, t, n);
    ApartAfter(s, r, t, Idle);
    assert ThreadOk(s, t) && Doing(s, t, Allocated(n));
    forall i, d ensures At(r.table, i, d) <==> At(s.table, i, d) || (i == h && d == n) {}
    NotBetween(s, n);
    forall u, q | Doing(r, u, q) && u != t ensures Doing(s, u, q) {}
    forall x | x in r.devices ensures CountOk(r, x) {
      assert CountOk(s, x);
      if x != n {
        PhasesAfter(s, r, t, Idle, x);
      }
    }
    forall u | u in r.threads ensures ThreadOk(r, u) {
      if u != t {
        assert ThreadOk(s, u) && Doing(s, u, s.threads[u]);
      }
    }
  }

  /** No thread is releasing a device that is not listed. */
  lemma NotBetween(s: State, n: nat)
    requires Inv(s) && n in s.devices && !Listed(s, n)
    ensures !Between(s, n)
  {
    forall t ensures !Doing(s, t, Releasing(n)) {
      if t in s.threads {
        assert ThreadOk(s, t);
      }
    }
  }

  /** A thread lets go of a device that is in no bucket and that no other thread has. */
  lemma FreedKeeps(s: State, t: nat, n: nat)
    requires Shape(s) && TableOk(s) && Apart(s) && t in s.threads && s.threads[t] in {Allocated(n), Releasing(n)}
    requires forall i :: !At(s.table, i, n)
    requires forall u {:trigger ThreadOk(s, u)} :: u in s.threads && u != t ==>
      ThreadOk(s, u) && s.threads[u] !in {Allocated(n), Releasing(n)}
    requires forall x {:trigger CountOk(s, x)} :: x in s.devices && x != n ==> CountOk(s, x)
    ensures Inv(Freed(Put(s, t, Idle), n))
  {
    var r := Freed(Put(s, t, Idle), n);
    TableKept(s, r);
    ApartAfter(s, r, t, Idle);
    forall x | x in r.devices ensures CountOk(r, x) {
      assert CountOk(s, x);
      PhasesAfter(s, r, t, Idle, x);
    }
    forall u | u in r.threads ensures ThreadOk(r, u) {
      if u != t {
        assert ThreadOk(s, u);
      }
    }
  }

  lemma DiscardKeeps(s: State, t: nat, n: nat)
    requires Inv(s) && t in s.threads && s.threads[t] == Allocated(n)
    ensures Inv(Freed(Put(s, t, Idle), n))
  {
    assert ThreadOk(s, t) && Doing(s, t, Allocated(n));
    NotBetween(s, n);
    forall u | u in s.threads && u != t ensures ThreadOk(s, u) && s.threads[u] !in {Allocated(n), Releasing(n)} {
      assert Doing(s, u, s.threads[u]);
    }
    forall i ensures !At(s.table, i, n) {}
    FreedKeeps(s, t, n);
  }

  lemma LookupAgainKeeps(s: State, t: nat)
    requires Inv(s) && Enabled(s, LookupAgain(t))
    ensures Inv(Apply(s, LookupAgain(t)))
  {
    var n := s.threads[t].d;
    assert ThreadOk(s, t);
    var h := Hash(s.devices[n].minor);
    match Find(s.table[h], s.devices, s.devices[n].ops, s.devices[n].minor)
    case None => EnterKeeps(s, t, n);
    case Some(d) =>
      assert At(s.table, h, d);
      ReferencedKeeps(s, d);
      DiscardKeeps(Referenced(s, d), t, n);
  }

  /** A device that has a user is listed. */
  lemma HeldListed(s: State, d: nat)
    requires Inv(s) && d in s.holders && s.holders[d] > 0
    ensures d in s.devices && Listed(s, d)
  {
    assert CountOk(s, d);
    forall t ensures !Doing(s, t, Allocated(d)) {
      if t in s.threads {
        assert ThreadOk(s, t);
      }
    }
  }

  lemma DropKeeps(s: State, t: nat, d: nat)
    requires Inv(s) && Enabled(s, Drop(t, d))
    ensures Inv(Apply(s, Drop(t, d)))
  {
    HeldListed(s, d);
    assert CountOk(s, d);
    var r := Apply(s, Drop(t, d));
    var p := if s.devices[d].refCount - 1 > 0 then Idle else Releasing(d);
    assert r.threads == s.threads[t := p];
    TableKept(s, r);
    ApartAfter(s, r, t, p);
    DropCounts(s, t, d);
    forall u | u in r.threads ensures ThreadOk(r, u) {
      assert ThreadOk(s, u);
    }
  }

  lemma DropCounts(s: State, t: nat, d: nat)
    requires Inv(s) && Enabled(s, Drop(t, d)) && d in s.devices && Listed(s, d)
    ensures var r := Apply(s, Drop(t, d));
      Shape(r) && forall x {:trigger CountOk(r, x)} :: x in r.devices ==> CountOk(r, x)
  {
    var r := Apply(s, Drop(t, d));
    var p := if s.devices[d].refCount - 1 > 0 then Idle else Releasing(d);
    assert r.threads == s.threads[t := p];
    forall x | x in r.devices ensures CountOk(r, x) {
      assert CountOk(s, x);
      PhasesAfter(s, r, t, p, x);
    }
  }

  lemma DropLastKeeps(s: State, t: nat)
    requires Inv(s) && Enabled(s, DropLast(t))
    ensures Inv(Apply(s, DropLast(t)))
  {
    var d := s.threads[t].d;
    assert ThreadOk(s, t) && Doing(s, t, Releasing(d)) && CountOk(s, d);
    if s.devices[d].refCount - 1 > 0 {
      StillUsedKeeps(s, t, d);
    } else {
      LastKeeps(s, t, d);
    }
  }

  /** Somebody found the device between the two phases. */
  lemma StillUsedKeeps(s: State, t: nat, d: nat)
    requires Inv(s) && t in s.threads && s.threads[t] == Releasing(d) && d in s.devices && Listed(s, d)
    requires s.devices[d].refCount > 1
    ensures Inv(Put(Counted(s, d, -1), t, Idle))
  {
    var r := Put(Counted(s, d, -1), t, Idle);
    assert Doing(s, t, Releasing(d));
    TableKept(s, r);
    ApartAfter(s, r, t, Idle);
    forall u, q | Doing(r, u, q) && u != t ensures Doing(s, u, q) {}
    forall x | x in r.devices ensures CountOk(r, x) {
      assert CountOk(s, x);
      if x != d {
        PhasesAfter(s, r, t, Idle, x);
      }
    }
    forall u | u in r.threads ensures ThreadOk(r, u) {
      if u != t {
        assert ThreadOk(s, u);
      }
    }
  }

  lemma LastKeeps(s: State, t: nat, d: nat)
    requires Inv(s) && t in s.threads && s.threads[t] == Releasing(d) && d in s.devices && Listed(s, d)
    requires s.devices[d].refCount <= 1
    ensures Inv(DropAgain(s, t, d)) && s.holders[d] == 0
  {
    var h := Hash(s.devices[d].minor);
    var q := s.(table := s.table[h := Dropped(s.table[h], d)]);
    assert Doing(s, t, Releasing(d)) && CountOk(s, d);
    forall i, x ensures At(q.table, i, x) <==> At(s.table, i, x) && !(i == h && x == d) {}
    forall i ensures !At(q.table, i, d) {
      assert At(s.table, i, d) ==> i == h;
    }
    forall u, p ensures Doing(q, u, p) <==> Doing(s, u, p) {}
    forall x | x in q.devices && x != d ensures CountOk(q, x) {
      assert CountOk(s, x);
      SamePhases(s, q, x);
    }
    forall u | u in q.threads && u != t ensures ThreadOk(q, u) && q.threads[u] !in {Allocated(d), Releasing(d)} {
      assert ThreadOk(s, u) && Doing(s, u, s.threads[u]);
    }
    FreedKeeps(q, t, d);
    assert DropAgain(s, t, d) == Freed(Put(q, t, Idle), d);
  }

  lemma ApplyKeeps(s: State, e: Event)
    requires Inv(s) && Enabled(s, e)
    ensures Inv(Apply(s, e))
  {
    match e
    case Lookup(t, ops, minor) => LookupKeeps(s, t, ops, minor);
    case Allocate(t) => AllocateKeeps(s, t);
    case LookupAgain(t) => LookupAgainKeeps(s, t);
    case Reference(d) =>
      HeldListed(s, d);
      ReferencedKeeps(s, d);
    case Drop(t, d) => DropKeeps(s, t, d);
    case DropLast(t) => DropLastKeeps(s, t);
  }

  // ---------------------------------------------------------------- runs

  /** Any number of idle threads, no devices. */
  function Start(threads: set<nat>): State {
    State(map[], seq(BUCKETS, _ => []), map[], map t | t in threads :: Idle, 0)
  }

  /** An event whose thread is elsewhere, or whose device is not held, cannot happen. */
  ghost function Step(s: State, e: Event): State {
    if Inv(s) && Enabled(s, e) then Apply(s, e) else s
  }

  ghost function Run(s: State, es: seq<Event>): State
    decreases |es|
  {
    if es == [] then s else Run(Step(s, es[0]), es[1..])
  }

  lemma {:induction false} RunKeeps(s: State, es: seq<Event>)
    requires Inv(s)
    ensures Inv(Run(s, es))
    decreases |es|
  {
    if es != [] {
      if Enabled(s, es[0]) {
        ApplyKeeps(s, es[0]);
      }
      RunKeeps(Step(s, es[0]), es[1..]);
    }
  }

  lemma StartInv(threads: set<nat>)
    ensures Inv(Start(threads))
  {
    forall i, d ensures !At(Start(threads).table, i, d) {}
  }

  ghost function Releasers(s: State, d: nat): set<nat> { set t | t in s.threads && s.threads[t] == Releasing(d) }

  /**
    * In every state of every run, the count of a device that can be found is its users plus the threads
    * between the two phases of releasing it, of which there is at most one.
    */
  lemma CountsAlways(threads: set<nat>, es: seq<Event>, d: nat)
    requires var s := Run(Start(threads), es); d in s.devices && |s.table| == BUCKETS && Listed(s, d)
    ensures var s := Run(Start(threads), es);
      && d in s.holders && s.devices[d].refCount == s.holders[d] + |Releasers(s, d)|
      && |Releasers(s, d)| <= 1 && s.devices[d].refCount >= 1
  {
    StartInv(threads);
    RunKeeps(Start(threads), es);
    var s := Run(Start(threads), es);
    assert CountOk(s, d);
    if Between(s, d) {
      var t: nat :| Doing(s, t, Releasing(d));
      forall u | u in Releasers(s, d) ensures u == t {
        assert Doing(s, u, Releasing(d));
      }
      assert Releasers(s, d) == {t};
    } else {
      forall u | u in s.threads ensures s.threads[u] != Releasing(d) {
        assert !Doing(s, u, Releasing(d));
      }
      assert Releasers(s, d) == {};
    }
  }

  /** In every state of every run there is at most one device with a driver and a unit in the table. */
  lemma OneDeviceEach(threads: set<nat>, es: seq<Event>, i: nat, j: nat, d: nat, e: nat)
    requires var s := Run(Start(threads), es); At(s.table, i, d) && At(s.table, j, e)
    ensures var s := Run(Start(threads), es);
      && d in s.devices && e in s.devices
      && (s.devices[d].ops == s.devices[e].ops && s.devices[d].minor == s.devices[e].minor ==> d == e && i == j)
  {
    StartInv(threads);
    RunKeeps(Start(threads), es);
  }

  /**
    * In every run a step frees a device only if it has no user; afterwards no bucket and no thread
    * refers to it, and nobody can hold it.
    */
  lemma FreedUnused(threads: set<nat>, es: seq<Event>, e: Event, d: nat)
    requires d in Run(Start(threads), es).devices && d !in Step(Run(Start(threads), es), e).devices
    ensures var s, r := Run(Start(threads), es), Step(Run(Start(threads), es), e);
      && d in s.holders && s.holders[d] == 0 && d !in r.holders
      && (forall i :: !At(r.table, i, d))
      && (forall t :: t in r.threads ==> r.threads[t] !in {Allocated(d), Releasing(d)})
  {
    StartInv(threads);
    RunKeeps(Start(threads), es);
    var s := Run(Start(threads), es);
    ApplyKeeps(s, e);
    var r := Apply(s, e);
    forall t | t in r.threads ensures r.threads[t] !in {Allocated(d), Releasing(d)} {
      assert ThreadOk(r, t);
    }
    FreesUnheld(s, e, d);
  }

  lemma FreesUnheld(s: State, e: Event, d: nat)
    requires Inv(s) && Enabled(s, e) && d in s.devices && d !in Apply(s, e).devices
    ensures s.holders[d] == 0
  {
    match e
    case LookupAgain(t) => assert ThreadOk(s, t);
    case DropLast(t) =>
      assert ThreadOk(s, t) && Doing(s, t, Releasing(d)) && CountOk(s, d);
    case _ =>
  }
}
