/** device_lookup gives a reference to the device it was asked for, whatever happens between its steps. */
module DeviceTableLaws {
  import opened Options
  import opened DeviceTable
  import opened DeviceTableRuns

  /** A thread is in device_lookup for this driver and unit: it has still to allocate, or has done so. */
  ghost predicate Pending(s: State, t: nat, ops: nat, minor: int) {
    && t in s.threads
    && match s.threads[t]
       case Allocating(o, m) => o == ops && m == minor
       case Allocated(d) => Named(s.devices, d, ops, minor)
       case _ => false
  }

  /** Of this driver and unit there is a device in the table that has one user more; no other device has. */
  ghost predicate Given(s: State, r: State, d: nat, ops: nat, minor: int) {
    && d in r.devices && r.devices[d].ops == ops && r.devices[d].minor == minor && At(r.table, minor % 8, d)
    && d in s.holders && d in r.holders && r.holders[d] == s.holders[d] + 1
    && forall x | x in r.holders && x != d :: x in s.holders && r.holders[x] == s.holders[x]
  }

  /** The first part of device_lookup: a device that is in the table is referenced; else the thread goes on. */
  lemma LookupBegins(s: State, t: nat, ops: nat, minor: int)
    requires Inv(s) && Enabled(s, Lookup(t, ops, minor))
    ensures var r := Apply(s, Lookup(t, ops, minor));
      if exists d :: At(s.table, minor % 8, d) && Named(s.devices, d, ops, minor) then
        r.threads == s.threads && r.table == s.table && exists d :: Given(s, r, d, ops, minor)
      else Pending(r, t, ops, minor) && r == s.(threads := r.threads)
  {
    var b := s.table[Hash(minor)];
    var f := Find(b, s.devices, ops, minor);
    if f.Some? {
      assert At(s.table, minor % 8, f.value);
      assert Given(s, Apply(s, Lookup(t, ops, minor)), f.value, ops, minor);
    } else {
      forall d ensures !(At(s.table, minor % 8, d) && Named(s.devices, d, ops, minor)) {}
    }
  }

  lemma AllocatePends(s: State, t: nat, u: nat, ops: nat, minor: int)
    requires Inv(s) && Pending(s, t, ops, minor) && Enabled(s, Allocate(u))
    ensures Pending(Apply(s, Allocate(u)), t, ops, minor)
  {}

  lemma LookupPends(s: State, t: nat, u: nat, o: nat, m: int, ops: nat, minor: int)
    requires Inv(s) && Pending(s, t, ops, minor) && Enabled(s, Lookup(u, o, m))
    ensures Pending(Apply(s, Lookup(u, o, m)), t, ops, minor)
  {}

  lemma LookupAgainPends(s: State, t: nat, u: nat, ops: nat, minor: int)
    requires Inv(s) && Pending(s, t, ops, minor) && Enabled(s, LookupAgain(u)) && u != t
    ensures Pending(Apply(s, LookupAgain(u)), t, ops, minor)
  {
    assert ThreadOk(s, u);
    assert Doing(s, u, s.threads[u]);
    if s.threads[t].Allocated? {
      assert Doing(s, t, s.threads[t]);
      assert s.threads[t].d != s.threads[u].d;
    }
  }

  lemma DropLastPends(s: State, t: nat, u: nat, ops: nat, minor: int)
    requires Inv(s) && Pending(s, t, ops, minor) && Enabled(s, DropLast(u))
    ensures Pending(Apply(s, DropLast(u)), t, ops, minor)
  {
    assert ThreadOk(s, u) && ThreadOk(s, t);
  }

  /** No step of another thread ends a lookup, or changes what it is for. */
  lemma StepPends(s: State, e: Event, t: nat, ops: nat, minor: int)
    requires Inv(s) && Pending(s, t, ops, minor) && e != LookupAgain(t)
    ensures Pending(Step(s, e), t, ops, minor)
  {
    if Enabled(s, e) {
      match e
      case Lookup(u, o, m) => LookupPends(s, t, u, o, m, ops, minor);
      case Allocate(u) => AllocatePends(s, t, u, ops, minor);
      case LookupAgain(u) => LookupAgainPends(s, t, u, ops, minor);
      case Reference(d) =>
      case Drop(u, d) =>
      case DropLast(u) => DropLastPends(s, t, u, ops, minor);
    }
  }

  lemma {:induction false} RunPends(s: State, es: seq<Event>, t: nat, ops: nat, minor: int)
    requires Inv(s) && Pending(s, t, ops, minor) && LookupAgain(t) !in es
    ensures Pending(Run(s, es), t, ops, minor)
    decreases |es|
  {
    if es != [] {
      StepPends(s, es[0], t, ops, minor);
      if Enabled(s, es[0]) {
        ApplyKeeps(s, es[0]);
      }
      RunPends(Step(s, es[0]), es[1..], t, ops, minor);
    }
  }

  /** The rest of device_lookup: the new device is entered, or one entered meanwhile is referenced instead. */
  lemma LookupEnds(s: State, t: nat, ops: nat, minor: int) returns (d: nat)
    requires Inv(s) && Pending(s, t, ops, minor) && Enabled(s, LookupAgain(t))
    ensures var r := Apply(s, LookupAgain(t)); Given(s, r, d, ops, minor) && r.threads[t] == Idle
  {
    assert ThreadOk(s, t);
    var n := s.threads[t].d;
    var f := Find(s.table[Hash(minor)], s.devices, ops, minor);
    d := if f.Some? then f.value else n;
    if f.Some? {
      assert At(s.table, minor % 8, d);
    }
  }

  /**
    * In every run a thread that did not find its device at first gets, when it looks again, a reference to a device
    * of the driver and unit that it asked for.
    */
  lemma LookupNames(threads: set<nat>, es: seq<Event>, t: nat, ops: nat, minor: int, fs: seq<Event>) returns (d: nat)
    requires var s := Run(Start(threads), es);
      var m := Step(s, Lookup(t, ops, minor));
      && Enabled(s, Lookup(t, ops, minor)) && m.threads != s.threads && LookupAgain(t) !in fs
      && Enabled(Run(m, fs), LookupAgain(t))
    ensures var m := Run(Step(Run(Start(threads), es), Lookup(t, ops, minor)), fs);
      Given(m, Step(m, LookupAgain(t)), d, ops, minor) && Step(m, LookupAgain(t)).threads[t] == Idle
  {
    var s := Run(Start(threads), es);
    StartInv(threads);
    RunKeeps(Start(threads), es);
    LookupBegins(s, t, ops, minor);
    ApplyKeeps(s, Lookup(t, ops, minor));
    var m := Step(s, Lookup(t, ops, minor));
    RunPends(m, fs, t, ops, minor);
    RunKeeps(m, fs);
    d := LookupEnds(Run(m, fs), t, ops, minor);
  }
}
