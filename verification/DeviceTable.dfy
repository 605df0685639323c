/**
  * Device structures and their references (device/dev_lookup.c).  The steps of the state machine are
  * the regions between taking and dropping dev_number_lock or a device's ref_lock.
  */
module DeviceTable {
  import opened Options

  const BUCKETS: nat := 8   // NDEVHASH

  datatype Device = Device(ops: nat, minor: int, refCount: int)

  /**
    * What a thread is doing: nothing here, device_lookup having dropped the lock to allocate, having
    * allocated, or mach_device_deallocate between its two phases.
    */
  datatype Thread = Idle | Allocating(ops: nat, minor: int) | Allocated(d: nat) | Releasing(d: nat)

  /** `holders` says how many references to a device its users have. */
  datatype State = State(devices: map<nat, Device>, table: seq<seq<nat>>, holders: map<nat, nat>,
                         threads: map<nat, Thread>, next: nat)

  datatype Event =
    | Lookup(t: nat, ops: nat, minor: int)   // device_lookup up to its first unlock
    | Allocate(t: nat)                       // its allocation
    | LookupAgain(t: nat)                    // the rest of it
    | Reference(d: nat)                      // mach_device_reference
    | Drop(t: nat, d: nat)                   // the first phase of mach_device_deallocate
    | DropLast(t: nat)                       // its second phase

  /** DEV_NUMBER_HASH. */
  function Hash(minor: int): (h: nat)
    ensures h < BUCKETS
  {
    minor % BUCKETS
  }

  predicate Named(devices: map<nat, Device>, d: nat, ops: nat, minor: int) {
    d in devices && devices[d].ops == ops && devices[d].minor == minor
  }

  /** dev_number_lookup on one bucket. */
  function Find(b: seq<nat>, devices: map<nat, Device>, ops: nat, minor: int): (r: Option<nat>)
    ensures r.Some? ==> r.value in b && Named(devices, r.value, ops, minor)
    ensures r.None? ==> forall d :: d in b ==> !Named(devices, d, ops, minor)
  {
    if b == [] then None else if Named(devices, b[0], ops, minor) then Some(b[0]) else Find(b[1..], devices, ops, minor)
  }

  function Counted(s: State, d: nat, n: int): State
    requires d in s.devices
  {
    s.(devices := s.devices[d := s.devices[d].(refCount := s.devices[d].refCount + n)])
  }

  /** A user has one reference more to a device that is in the table. */
  function Referenced(s: State, d: nat): State
    requires d in s.devices && d in s.holders
  {
    Counted(s, d, 1).(holders := s.holders[d := s.holders[d] + 1])
  }

  function Put(s: State, t: nat, phase: Thread): State { s.(threads := s.threads[t := phase]) }

  function Freed(s: State, d: nat): State { s.(devices := s.devices - {d}, holders := s.holders - {d}) }

  /** The part of device_lookup after the table is searched again. */
  function EnterOrDiscard(s: State, t: nat, n: nat): State
    requires |s.table| == BUCKETS && n in s.devices && s.holders.Keys == s.devices.Keys
  {
    var h := Hash(s.devices[n].minor);
    match Find(s.table[h], s.devices, s.devices[n].ops, s.devices[n].minor)
    case Some(d) => Freed(Put(Referenced(s, d), t, Idle), n)
    case None => Put(s, t, Idle).(table := s.table[h := s.table[h] + [n]], holders := s.holders[n := 1])
  }

  /** The two phases of mach_device_deallocate. */
  function DropOne(s: State, t: nat, d: nat): State
    requires d in s.devices && d in s.holders && s.holders[d] > 0
  {
    var r := s.(holders := s.holders[d := s.holders[d] - 1]);
    if s.devices[d].refCount - 1 > 0 then Counted(r, d, -1)
    else Put(r.(devices := r.devices[d := r.devices[d].(refCount := 1)]), t, Releasing(d))
  }

  function DropAgain(s: State, t: nat, d: nat): State
    requires |s.table| == BUCKETS && d in s.devices
  {
    var h := Hash(s.devices[d].minor);
    if s.devices[d].refCount - 1 > 0 then Put(Counted(s, d, -1), t, Idle)
    else Freed(Put(s, t, Idle).(table := s.table[h := Dropped(s.table[h], d)]), d)
  }

  ghost predicate Enabled(s: State, e: Event) {
    match e
    case Lookup(t, _, _) => t in s.threads && s.threads[t].Idle?
    case Allocate(t) => t in s.threads && s.threads[t].Allocating?
    case LookupAgain(t) => t in s.threads && s.threads[t].Allocated?
    case Reference(d) => d in s.holders && s.holders[d] > 0
    case Drop(t, d) => t in s.threads && s.threads[t].Idle? && d in s.holders && s.holders[d] > 0
    case DropLast(t) => t in s.threads && s.threads[t].Releasing?
  }

  function Apply(s: State, e: Event): State
    requires Inv(s) && Enabled(s, e)
  {
    match e
    case Lookup(t, ops, minor) =>
      (match Find(s.table[Hash(minor)], s.devices, ops, minor)
       case Some(d) => Referenced(s, d)
       case None => Put(s, t, Allocating(ops, minor)))
    case Allocate(t) =>
      var th := s.threads[t];
      Put(s, t, Allocated(s.next)).(
        devices := s.devices[s.next := Device(th.ops, th.minor, 1)], holders := s.holders[s.next := 0],
        next := s.next + 1)
    case LookupAgain(t) => assert ThreadOk(s, t); EnterOrDiscard(s, t, s.threads[t].d)
    case Reference(d) => Referenced(s, d)
    case Drop(t, d) => DropOne(s, t, d)
    case DropLast(t) => assert ThreadOk(s, t); DropAgain(s, t, s.threads[t].d)
  }

  // ---------------------------------------------------------------- the invariant

  ghost predicate Listed(s: State, d: nat)
    requires |s.table| == BUCKETS && d in s.devices
  {
    At(s.table, Hash(s.devices[d].minor), d)
  }

  ghost predicate Doing(s: State, t: nat, phase: Thread) { t in s.threads && s.threads[t] == phase }

  /** A thread is between the two phases of releasing the device. */
  ghost predicate Between(s: State, d: nat) { exists t :: Doing(s, t, Releasing(d)) }

  /** A thread has allocated the device and not yet entered it. */
  ghost predicate Private(s: State, d: nat) { exists t :: Doing(s, t, Allocated(d)) }

  ghost predicate Shape(s: State) {
    |s.table| == BUCKETS && s.holders.Keys == s.devices.Keys && forall d :: d in s.devices ==> d < s.next
  }

  /** What is in a bucket belongs there, and no two entries have the same driver and unit. */
  ghost predicate TableOk(s: State)
    requires Shape(s)
  {
    && (forall i, d {:trigger At(s.table, i, d)} ::
          At(s.table, i, d) ==> d in s.devices && Hash(s.devices[d].minor) == i)
    && (forall i, d, e {:trigger At(s.table, i, d), At(s.table, i, e)} ::
          At(s.table, i, d) && At(s.table, i, e) && d != e ==>
          s.devices[d].ops != s.devices[e].ops || s.devices[d].minor != s.devices[e].minor)
  }

  ghost predicate At(table: seq<seq<nat>>, i: nat, d: nat) { i < |table| && d in table[i] }

  /** A thread's device exists, no other thread has it, and a new one has no user yet. */
  ghost predicate ThreadOk(s: State, t: nat)
    requires Shape(s) && t in s.threads
  {
    match s.threads[t]
    case Allocated(d) => d in s.devices && !Listed(s, d) && s.devices[d].refCount == 1 && s.holders[d] == 0
    case Releasing(d) => d in s.devices && Listed(s, d)
    case _ => true
  }

  ghost predicate Apart(s: State) {
    forall t, u, p {:trigger Doing(s, t, p), Doing(s, u, p)} ::
      Doing(s, t, p) && Doing(s, u, p) && (p.Allocated? || p.Releasing?) ==> t == u
  }

  /** The count of a listed device is its users and the thread that is releasing it; others are private. */
  ghost predicate CountOk(s: State, d: nat)
    requires Shape(s) && d in s.devices
  {
    if Listed(s, d) then
      && s.devices[d].refCount == s.holders[d] + (if Between(s, d) then 1 else 0)
      && s.devices[d].refCount >= 1
    else Private(s, d)
  }

  ghost predicate Inv(s: State) {
    && Shape(s) && TableOk(s) && Apart(s)
    && (forall t {:trigger ThreadOk(s, t)} :: t in s.threads ==> ThreadOk(s, t))
    && (forall d {:trigger CountOk(s, d)} :: d in s.devices ==> CountOk(s, d))
  }

  /** The loop of dev_number_lookup. */
  method FindDevice(b: seq<nat>, devices: map<nat, Device>, ops: nat, minor: int) returns (r: Option<nat>)
    ensures r == Find(b, devices, ops, minor)
  {
    var i := 0;
    while i < |b|
      invariant 0 <= i <= |b| && Find(b[i..], devices, ops, minor) == Find(b, devices, ops, minor)
    {
      if b[i] in devices && devices[b[i]].ops == ops && devices[b[i]].minor == minor {
        return Some(b[i]);
      }
      assert b[i..][1..] == b[i + 1..];
      i := i + 1;
    }
    return None;
  }

  // ---------------------------------------------------------------- the regions in place

  class Devices {
    var devices: map<nat, Device>
    var table: seq<seq<nat>>
    var holders: map<nat, nat>
    var threads: map<nat, Thread>
    var next: nat

    ghost function View(): State
      reads this
    {
      State(devices, table, holders, threads, next)
    }

    constructor (ids: set<nat>)
      ensures View() == State(map[], seq(BUCKETS, _ => []), map[], map t | t in ids :: Idle, 0)
    {
      devices, table, holders := map[], seq(BUCKETS, _ => []), map[];
      threads, next := map t | t in ids :: Idle, 0;
    }

    /** mach_device_reference. */
    method Refer(d: nat)
      requires d in devices && d in holders
      modifies this
      ensures View() == Referenced(old(View()), d)
    {
      devices := devices[d := devices[d].(refCount := devices[d].refCount + 1)];
      holders := holders[d := holders[d] + 1];
    }

    /** device_lookup up to the point where it finds the device or drops the lock. */
    method LookFor(t: nat, ops: nat, minor: int)
      requires Inv(View()) && Enabled(View(), Lookup(t, ops, minor))
      modifies this
      ensures View() == Apply(old(View()), Lookup(t, ops, minor))
    {
      assert Shape(View()) && TableOk(View());
      var found := FindDevice(table[Hash(minor)], devices, ops, minor);
      if found.Some? {
        assert At(table, Hash(minor), found.value);
        Refer(found.value);
      } else {
        threads := threads[t := Allocating(ops, minor)];
      }
    }

    /** device_lookup after its allocation: the new structure is entered, or given up for one that appeared. */
    method LookForAgain(t: nat)
      requires Inv(View()) && Enabled(View(), LookupAgain(t))
      modifies this
      ensures View() == Apply(old(View()), LookupAgain(t))
    {
      var n := threads[t].d;
      assert ThreadOk(View(), t);
      var h := Hash(devices[n].minor);
      var found := FindDevice(table[h], devices, devices[n].ops, devices[n].minor);
      if found.Some? {
        assert At(table, h, found.value);
        Refer(found.value);
        threads := threads[t := Idle];
        devices, holders := devices - {n}, holders - {n};
      } else {
        threads := threads[t := Idle];
        table := table[h := table[h] + [n]];
        holders := holders[n := 1];
      }
    }

    /** The first phase of mach_device_deallocate. */
    method Deallocate(t: nat, d: nat)
      requires d in devices && d in holders && holders[d] > 0
      modifies this
      ensures View() == DropOne(old(View()), t, d)
    {
      holders := holders[d := holders[d] - 1];
      var count := devices[d].refCount - 1;
      if count > 0 {
        devices := devices[d := devices[d].(refCount := count)];
      } else {
        devices := devices[d := devices[d].(refCount := 1)];
        threads := threads[t := Releasing(d)];
      }
    }

    /** Its second phase. */
    method DeallocateLast(t: nat, d: nat)
      requires |table| == BUCKETS && d in devices
      modifies this
      ensures View() == DropAgain(old(View()), t, d)
    {
      var count := devices[d].refCount - 1;
      threads := threads[t := Idle];
      if count > 0 {
        devices := devices[d := devices[d].(refCount := count)];
      } else {
        var h := Hash(devices[d].minor);
        table := table[h := Dropped(table[h], d)];
        devices, holders := devices - {d}, holders - {d};
      }
    }
  }
}
