/**
  * Opening and closing one device (device/ds_routines.c: device_open, ds_open_done, device_close,
  * mach_convert_device_to_port).  Every client is a thread that opens the device and may then close it
  * once; the steps are the regions under the device's lock and the calls between them.
  */
module DeviceOpen {
  import opened Options

  datatype DeviceState = Init | Opening | Open | Closing   // DEV_STATE_*

  datatype Phase =
    | Idle
    | Looking        // device_open with the device looked up, before the lock
    | Sleeping       // waiting for an open or a close to finish
    | Starting       // has set OPENING, before the port is allocated
    | Calling        // the port is entered, in the driver's open
    | Succeeded      // the driver opened, before ds_open_done takes the lock
    | Failing        // the driver failed, before the port is removed
    | Failed         // before ds_open_done takes the lock
    | Opened         // the open is counted, before the reference is given for a port
    | Replying       // the same in ds_open_done, before the reply
    | Client         // has the device open
    | Unheard        // the open is counted, but there was no port to reply to
    | Closer         // in device_close, before the lock
    | Removing       // has set CLOSING, before the port is removed
    | CallingClose   // in the driver's close
    | Closed         // before CLOSING is undone
    | Dropping       // about to give its reference back

  /** `calls` are the driver's successful opens (true) and closes; `owner` is who set OPENING or CLOSING. */
  datatype State = State(
    state: DeviceState, exclusive: bool, openCount: int, ioWait: bool, port: bool, refs: int,
    threads: map<nat, Phase>, owner: Option<nat>, calls: seq<bool>)

  datatype Event =
    | Lookup(t: nat)                  // device_lookup
    | Enter(t: nat)                   // the locked region of device_open
    | AllocatePort(t: nat, ok: bool)  // ipc_port_alloc_kernel, and dev_port_enter or the failure
    | DriverOpen(t: nat, ok: bool)    // d_open completes
    | OpenDone(t: nat)                // ds_open_done after a success
    | RemovePort(t: nat)              // dev_port_remove, after a failed open or for a close
    | OpenFailed(t: nat)              // ds_open_done after a failure
    | Interrupt(t: nat)               // a sleep ends early
    | Convert(t: nat)                 // mach_convert_device_to_port
    | NoReply(t: nat)                 // ds_open_done finds no valid reply port
    | CallClose(t: nat)               // device_close is called with a reference from the port
    | Close(t: nat)                   // its first locked region
    | DriverClose(t: nat)             // d_close
    | CloseDone(t: nat)               // its last locked region
    | Drop(t: nat)                    // mach_device_deallocate

  // ---------------------------------------------------------------- the steps

  function Put(s: State, t: nat, p: Phase): State { s.(threads := s.threads[t := p]) }

  /** thread_wakeup: everybody who waits for the device looks again. */
  function Woken(threads: map<nat, Phase>): map<nat, Phase> {
    map t | t in threads :: if threads[t] == Sleeping then Looking else threads[t]
  }

  /** The device leaves OPENING or CLOSING. */
  function Settled(s: State, state: DeviceState): State {
    var r := s.(state := state, owner := None);
    if s.ioWait then r.(ioWait := false, threads := Woken(r.threads)) else r
  }

  function Entered(s: State, t: nat): State {
    match s.state
    case Opening => Put(s, t, Sleeping).(ioWait := true)
    case Closing => Put(s, t, Sleeping).(ioWait := true)
    case Open => if s.exclusive then Put(s, t, Dropping) else Put(s, t, Opened).(openCount := s.openCount + 1)
    case Init => Put(s, t, Starting).(state := Opening, owner := Some(t))
  }

  function Counted(s: State, t: nat): State {
    var r := s.(openCount := s.openCount - 1);
    if r.openCount > 0 || r.state == Closing then Put(r, t, Dropping)
    else Put(r, t, Removing).(state := Closing, owner := Some(t))
  }

  /** The phase a thread must be in for an event. */
  predicate Before(e: Event, p: Phase) {
    match e
    case Lookup(_) => p == Idle
    case Enter(_) => p == Looking
    case AllocatePort(_, _) => p == Starting
    case DriverOpen(_, _) => p == Calling
    case OpenDone(_) => p == Succeeded
    case RemovePort(_) => p == Failing || p == Removing
    case OpenFailed(_) => p == Failed
    case Interrupt(_) => p == Sleeping
    case Convert(_) => p == Opened || p == Replying
    case NoReply(_) => p == Replying
    case CallClose(_) => p == Client
    case Close(_) => p == Closer
    case DriverClose(_) => p == CallingClose
    case CloseDone(_) => p == Closed
    case Drop(_) => p == Dropping
  }

  predicate Enabled(s: State, e: Event) { e.t in s.threads && Before(e, s.threads[e.t]) }

  function Apply(s: State, e: Event): State
    requires Enabled(s, e)
  {
    match e
    case Lookup(t) => Put(s, t, Looking).(refs := s.refs + 1)
    case Enter(t) => Entered(s, t)
    case AllocatePort(t, ok) =>
      if ok then Put(s, t, Calling).(port := true, refs := s.refs + 1) else Settled(Put(s, t, Dropping), Init)
    case DriverOpen(t, ok) => if ok then Put(s, t, Succeeded).(calls := s.calls + [true]) else Put(s, t, Failing)
    case OpenDone(t) => Settled(Put(s, t, Replying).(openCount := 1), Open)
    case RemovePort(t) =>
      Put(s, t, if s.threads[t] == Failing then Failed else CallingClose).(port := false, refs := s.refs - 1)
    case OpenFailed(t) => Settled(Put(s, t, Dropping), Init)
    case Interrupt(t) => Put(s, t, Looking)
    case Convert(t) => Put(s, t, Client).(refs := s.refs - 1)
    case NoReply(t) => Put(s, t, Unheard).(refs := s.refs - 1)
    case CallClose(t) => Put(s, t, Closer).(refs := s.refs + 1)
    case Close(t) => Counted(s, t)
    case DriverClose(t) => Put(s, t, Closed).(calls := s.calls + [false])
    case CloseDone(t) => Settled(Put(s, t, Dropping), Init)
    case Drop(t) => Put(s, t, Idle).(refs := s.refs - 1)
  }

  // ---------------------------------------------------------------- the invariant

  /** Phases in which a thread has a reference of its own. */
  predicate Holds(p: Phase) { p !in {Idle, Client, Unheard} }

  /** Phases in which a thread's open is counted. */
  predicate Granted(p: Phase) { p in {Opened, Replying, Client, Unheard, Closer} }

  predicate IsOpening(p: Phase) { p in {Starting, Calling, Succeeded, Failing, Failed} }

  predicate IsClosing(p: Phase) { p in {Removing, CallingClose, Closed} }

  /** Phases of the owner in which the device has its port. */
  predicate HasPort(p: Phase) { p in {Calling, Succeeded, Failing, Removing} }

  /** Phases of the owner in which the driver has the device open. */
  predicate DriverHasIt(p: Phase) { p in {Succeeded, Removing, CallingClose} }

  function With(threads: map<nat, Phase>, f: Phase -> bool): set<nat> { set t | t in threads && f(threads[t]) }

  /** The driver is called to open and to close in turn, to open first. */
  predicate Alternate(calls: seq<bool>) { forall i :: 0 <= i < |calls| ==> calls[i] == (i % 2 == 0) }

  /** Only the thread that set OPENING or CLOSING is between setting it and undoing it. */
  ghost predicate OwnerOk(s: State) {
    && (forall t :: t in s.threads && (IsOpening(s.threads[t]) || IsClosing(s.threads[t])) ==> s.owner == Some(t))
    && (s.owner.Some? ==> s.owner.value in s.threads)
    && (match s.state
        case Opening => s.owner.Some? && IsOpening(s.threads[s.owner.value])
        case Closing => s.owner.Some? && IsClosing(s.threads[s.owner.value])
        case _ => s.owner.None?)
  }

  ghost predicate PortOk(s: State)
    requires OwnerOk(s)
  {
    && (s.port <==> s.state == Open || (s.owner.Some? && HasPort(s.threads[s.owner.value])))
    && Alternate(s.calls)
    && (|s.calls| % 2 == 1 <==> s.state == Open || (s.owner.Some? && DriverHasIt(s.threads[s.owner.value])))
  }

  /** The counts: opens granted and not closed; references of threads and of the port. */
  ghost predicate CountsOk(s: State) {
    && s.openCount == |With(s.threads, Granted)| && (s.state == Open <==> s.openCount > 0)
    && (s.exclusive ==> s.openCount <= 1)
    && s.refs == |With(s.threads, Holds)| + (if s.port then 1 else 0)
  }

  /** Nobody sleeps unless there is somebody to wake them. */
  ghost predicate SleepOk(s: State) {
    (exists t :: t in s.threads && s.threads[t] == Sleeping) ==> s.ioWait && s.owner.Some?
  }

  ghost predicate Inv(s: State) { OwnerOk(s) && PortOk(s) && CountsOk(s) && SleepOk(s) }

  // ---------------------------------------------------------------- counting

  lemma SizeApart(a: set<nat>, t: nat)
    ensures |a| == |a - {t}| + if t in a then 1 else 0
  {
    if t in a {
      assert a == (a - {t}) + {t};
    } else {
      assert a == a - {t};
    }
  }

  lemma WithPut(threads: map<nat, Phase>, f: Phase -> bool, t: nat, p: Phase)
    requires t in threads
    ensures |With(threads[t := p], f)|
      == |With(threads, f)| - (if f(threads[t]) then 1 else 0) + (if f(p) then 1 else 0)
  {
    var a, b := With(threads, f), With(threads[t := p], f);
    assert a - {t} == b - {t};
    SizeApart(a, t);
    SizeApart(b, t);
  }

  lemma WithWoken(threads: map<nat, Phase>, f: Phase -> bool)
    requires f(Sleeping) == f(Looking)
    ensures With(Woken(threads), f) == With(threads, f)
  {}

  lemma WithAllIdle(threads: map<nat, Phase>)
    requires AllIdle(threads)
    ensures With(threads, Holds) == {} && With(threads, Granted) == {}
  {}

  predicate AllIdle(threads: map<nat, Phase>) { forall t :: t in threads ==> threads[t] == Idle }

  lemma CountsPut(s: State, t: nat, p: Phase)
    requires t in s.threads
    ensures |With(Put(s, t, p).threads, Holds)|
      == |With(s.threads, Holds)| - (if Holds(s.threads[t]) then 1 else 0) + (if Holds(p) then 1 else 0)
    ensures |With(Put(s, t, p).threads, Granted)|
      == |With(s.threads, Granted)| - (if Granted(s.threads[t]) then 1 else 0) + (if Granted(p) then 1 else 0)
  {
    WithPut(s.threads, Holds, t, p);
    WithPut(s.threads, Granted, t, p);
  }

  lemma CountsSettled(s: State, state: DeviceState)
    ensures |With(Settled(s, state).threads, Holds)| == |With(s.threads, Holds)|
    ensures |With(Settled(s, state).threads, Granted)| == |With(s.threads, Granted)|
  {
    WithWoken(s.threads, Holds);
    WithWoken(s.threads, Granted);
  }

  /** A thread whose open is counted finds the device open. */
  lemma GrantedOpen(s: State, t: nat)
    requires CountsOk(s) && t in s.threads && Granted(s.threads[t])
    ensures s.state == Open && s.openCount >= 1
  {
    assert t in With(s.threads, Granted);
  }

  // ---------------------------------------------------------------- every step keeps the invariant

  /** The rest of the invariant, which does not count. */
  ghost predicate Orderly(s: State) { OwnerOk(s) && PortOk(s) && SleepOk(s) }

  lemma LookupOrderly(s: State, e: Event)
    requires Orderly(s) && Enabled(s, e) && (e.Lookup? || e.CallClose? || e.Drop?)
    ensures Orderly(Apply(s, e))
  {}

  lemma ReplyOrderly(s: State, e: Event)
    requires Orderly(s) && Enabled(s, e) && (e.Convert? || e.Interrupt? || e.NoReply?)
    ensures Orderly(Apply(s, e))
  {}

  lemma DriverOrderly(s: State, e: Event)
    requires Orderly(s) && Enabled(s, e) && (e.DriverOpen? || e.DriverClose?)
    ensures Orderly(Apply(s, e))
  {}

  lemma PortOrderly(s: State, e: Event)
    requires Orderly(s) && Enabled(s, e) && (e.RemovePort? || (e.AllocatePort? && e.ok))
    ensures Orderly(Apply(s, e))
  {}

  lemma SleepOrderly(s: State, t: nat)
    requires Orderly(s) && Enabled(s, Enter(t)) && (s.state == Opening || s.state == Closing)
    ensures Orderly(Apply(s, Enter(t)))
  {}

  lemma JoinOrderly(s: State, t: nat)
    requires Orderly(s) && Enabled(s, Enter(t)) && s.state == Open
    ensures Orderly(Apply(s, Enter(t)))
  {}

  lemma StartOrderly(s: State, t: nat)
    requires Orderly(s) && Enabled(s, Enter(t)) && s.state == Init
    ensures Orderly(Apply(s, Enter(t)))
  {}

  lemma EnterOrderly(s: State, t: nat)
    requires Orderly(s) && Enabled(s, Enter(t))
    ensures Orderly(Apply(s, Enter(t)))
  {
    match s.state
    case Init => StartOrderly(s, t);
    case Open => JoinOrderly(s, t);
    case _ => SleepOrderly(s, t);
  }

  lemma CloseOrderly(s: State, t: nat)
    requires Orderly(s) && Enabled(s, Close(t)) && s.state == Open
    ensures Orderly(Apply(s, Close(t)))
  {}

  lemma MoveCounts(s: State, e: Event)
    requires Inv(s) && Enabled(s, e) && !e.OpenDone? && !e.OpenFailed? && !e.CloseDone? && !(e.AllocatePort? && !e.ok)
    ensures CountsOk(Apply(s, e))
  {
    match e
    case Enter(t) => EnterCounts(s, t);
    case Close(t) => CloseCounts(s, t);
    case _ => PlainCounts(s, e);
  }

  lemma PlainCounts(s: State, e: Event)
    requires Inv(s) && Enabled(s, e) && !e.OpenDone? && !e.OpenFailed? && !e.CloseDone? && !(e.AllocatePort? && !e.ok)
    requires !e.Enter? && !e.Close?
    ensures CountsOk(Apply(s, e))
  {
    var r := Apply(s, e);
    CountsPut(s, e.t, r.threads[e.t]);
    if Granted(s.threads[e.t]) {
      GrantedOpen(s, e.t);
    }
  }

  lemma EnterCounts(s: State, t: nat)
    requires Inv(s) && Enabled(s, Enter(t))
    ensures CountsOk(Apply(s, Enter(t)))
  {
    CountsPut(s, t, Apply(s, Enter(t)).threads[t]);
  }

  lemma CloseCounts(s: State, t: nat)
    requires Inv(s) && Enabled(s, Close(t))
    ensures CountsOk(Apply(s, Close(t)))
  {
    GrantedOpen(s, t);
    CountsPut(s, t, Apply(s, Close(t)).threads[t]);
  }

  /** With the device opening or closing, nobody's open is counted, and its owner settles it. */
  lemma SettleCounts(s: State, e: Event)
    requires Inv(s) && Enabled(s, e) && (e.OpenDone? || e.OpenFailed? || e.CloseDone? || (e.AllocatePort? && !e.ok))
    ensures CountsOk(Apply(s, e))
  {
    var p := if e.OpenDone? then Replying else Dropping;
    CountsPut(s, e.t, p);
    if e.OpenDone? {
      CountsSettled(Put(s, e.t, p).(openCount := 1), Open);
    } else {
      CountsSettled(Put(s, e.t, p), Init);
    }
  }

  lemma SettleOrderly(s: State, e: Event)
    requires Orderly(s) && Enabled(s, e) && (e.OpenDone? || e.OpenFailed? || e.CloseDone? || (e.AllocatePort? && !e.ok))
    ensures Orderly(Apply(s, e))
  {
    var r := Apply(s, e);
    forall t | t in r.threads ensures r.threads[t] != Sleeping && !IsOpening(r.threads[t]) && !IsClosing(r.threads[t]) {
      assert t in s.threads;
    }
  }

  lemma ApplyKeeps(s: State, e: Event)
    requires Inv(s) && Enabled(s, e)
    ensures Inv(Apply(s, e))
  {
    if e.OpenDone? || e.OpenFailed? || e.CloseDone? || (e.AllocatePort? && !e.ok) {
      SettleCounts(s, e);
      SettleOrderly(s, e);
    } else {
      MoveCounts(s, e);
      match e
      case Enter(t) => EnterOrderly(s, t);
      case AllocatePort(_, _) => PortOrderly(s, e);
      case RemovePort(_) => PortOrderly(s, e);
      case Close(t) =>
        GrantedOpen(s, t);
        CloseOrderly(s, t);
      case DriverOpen(_, _) => DriverOrderly(s, e);
      case DriverClose(_) => DriverOrderly(s, e);
      case Convert(_) => ReplyOrderly(s, e);
      case Interrupt(_) => ReplyOrderly(s, e);
      case NoReply(_) => ReplyOrderly(s, e);
      case _ => LookupOrderly(s, e);
    }
  }

  // ---------------------------------------------------------------- the locked regions in place

  class NativeDevice {
    var state: DeviceState
    const exclusive: bool
    var openCount: int
    var ioWait: bool
    var port: bool
    var refs: int
    var threads: map<nat, Phase>
    var owner: Option<nat>
    var calls: seq<bool>

    ghost function View(): State
      reads this
    {
      State(state, exclusive, openCount, ioWait, port, refs, threads, owner, calls)
    }

    constructor (ids: set<nat>, exclusive: bool)
      ensures View() == Start(ids, exclusive)
    {
      this.exclusive := exclusive;
      state, openCount, ioWait, port, refs := Init, 0, false, false, 0;
      threads, owner, calls := map t | t in ids :: Idle, None, [];
    }

    /** The locked region of device_open: one look at the device's state. */
    method OpenRegion(t: nat)
      modifies this
      ensures View() == Entered(old(View()), t)
    {
      if state == Opening || state == Closing {
        ioWait := true;
        threads := threads[t := Sleeping];
        return;
      }
      if state == Open {
        if exclusive {
          threads := threads[t := Dropping];
          return;
        }
        openCount := openCount + 1;
        threads := threads[t := Opened];
        return;
      }
      state, owner := Opening, Some(t);
      threads := threads[t := Starting];
    }

    /** The end of an open or a close: waiting threads are woken. */
    method Settle(to: DeviceState)
      modifies this
      ensures View() == Settled(old(View()), to)
    {
      state, owner := to, None;
      if ioWait {
        ioWait := false;
        threads := Woken(threads);
      }
    }

    /** The first locked region of device_close. */
    method CloseRegion(t: nat)
      modifies this
      ensures View() == Counted(old(View()), t)
    {
      openCount := openCount - 1;
      if openCount > 0 || state == Closing {
        threads := threads[t := Dropping];
        return;
      }
      state, owner := Closing, Some(t);
      threads := threads[t := Removing];
    }
  }

  // ---------------------------------------------------------------- runs

  /** Any number of threads, and the device never opened. */
  function Start(threads: set<nat>, exclusive: bool): State {
    State(Init, exclusive, 0, false, false, 0, map t | t in threads :: Idle, None, [])
  }

  /** An event whose thread is elsewhere cannot happen. */
  function Step(s: State, e: Event): State { if Enabled(s, e) then Apply(s, e) else s }

  function Run(s: State, es: seq<Event>): State
    decreases |es|
  {
    if es == [] then s else Run(Step(s, es[0]), es[1..])
  }

  lemma {:induction false} RunKeeps(s: State, es: seq<Event>)
    requires Inv(s)
    ensures Inv(Run(s, es))
    decreases |es|
  {
    if es != [] {
      if Enabled(s, es[0]) {
        ApplyKeeps(s, es[0]);
      }
      RunKeeps(Step(s, es[0]), es[1..]);
    }
  }

  lemma RunInv(threads: set<nat>, exclusive: bool, es: seq<Event>)
    ensures Inv(Run(Start(threads, exclusive), es))
  {
    var s := Start(threads, exclusive);
    assert With(s.threads, Holds) == {} && With(s.threads, Granted) == {};
    RunKeeps(s, es);
  }

  /** In every state of every run at most one thread is opening or closing the device. */
  lemma OneAtATime(threads: set<nat>, exclusive: bool, es: seq<Event>, t: nat, u: nat)
    requires var s := Run(Start(threads, exclusive), es);
      t in s.threads && u in s.threads
      && (IsOpening(s.threads[t]) || IsClosing(s.threads[t])) && (IsOpening(s.threads[u]) || IsClosing(s.threads[u]))
    ensures t == u
  {
    RunInv(threads, exclusive, es);
  }

  /** In every run the driver's successful opens and its closes alternate. */
  lemma DriverAlternates(threads: set<nat>, exclusive: bool, es: seq<Event>)
    ensures Alternate(Run(Start(threads, exclusive), es).calls)
  {
    RunInv(threads, exclusive, es);
  }

  /** In every run the open count is the number of opens outstanding; an exclusive device has at most one. */
  lemma OpensCounted(threads: set<nat>, exclusive: bool, es: seq<Event>)
    ensures var s := Run(Start(threads, exclusive), es);
      s.openCount == |With(s.threads, Granted)| && (s.exclusive ==> s.openCount <= 1)
  {
    RunInv(threads, exclusive, es);
  }

  /** In every run a client that was let in gets the device's port. */
  lemma ConversionFindsPort(threads: set<nat>, exclusive: bool, es: seq<Event>, t: nat)
    requires var s := Run(Start(threads, exclusive), es); t in s.threads && Granted(s.threads[t])
    ensures var s := Run(Start(threads, exclusive), es); s.state == Open && s.port
  {
    RunInv(threads, exclusive, es);
    GrantedOpen(Run(Start(threads, exclusive), es), t);
  }

  /**
    * Whoever took which way, when all are idle again every reference was given back and the driver has the device
    * closed.
    */
  lemma ReferencesReturned(threads: set<nat>, exclusive: bool, es: seq<Event>)
    requires AllIdle(Run(Start(threads, exclusive), es).threads)
    ensures var s := Run(Start(threads, exclusive), es);
      s.refs == 0 && s.openCount == 0 && !s.port && s.state == Init && |s.calls| % 2 == 0
  {
    RunInv(threads, exclusive, es);
    var s := Run(Start(threads, exclusive), es);
    WithAllIdle(s.threads);
  }

  /** In every run, whoever sleeps will be woken: a thread is opening or closing, and the wait is marked. */
  lemma SleepersHaveWaker(threads: set<nat>, exclusive: bool, es: seq<Event>, t: nat)
    requires var s := Run(Start(threads, exclusive), es); t in s.threads && s.threads[t] == Sleeping
    ensures var s := Run(Start(threads, exclusive), es);
      s.ioWait && exists u :: u in s.threads && u != t && (IsOpening(s.threads[u]) || IsClosing(s.threads[u]))
  {
    RunInv(threads, exclusive, es);
    var s := Run(Start(threads, exclusive), es);
    var u := s.owner.value;
    assert IsOpening(s.threads[u]) || IsClosing(s.threads[u]);
  }

  lemma SettlingUnheard(s: State, e: Event, t: nat)
    requires Enabled(s, e) && (e.OpenDone? || e.OpenFailed? || e.CloseDone? || e.AllocatePort?)
    requires t in s.threads && s.threads[t] == Unheard
    ensures t in Apply(s, e).threads && Apply(s, e).threads[t] == Unheard
  {}

  lemma RegionUnheard(s: State, e: Event, t: nat)
    requires Enabled(s, e) && (e.Enter? || e.Close?) && t in s.threads && s.threads[t] == Unheard
    ensures t in Apply(s, e).threads && Apply(s, e).threads[t] == Unheard
  {}

  lemma MovingUnheard(s: State, e: Event, t: nat)
    requires Enabled(s, e) && !(e.OpenDone? || e.OpenFailed? || e.CloseDone? || e.AllocatePort? || e.Enter? || e.Close?)
    requires t in s.threads && s.threads[t] == Unheard
    ensures t in Apply(s, e).threads && Apply(s, e).threads[t] == Unheard
  {}

  lemma StepUnheard(s: State, e: Event, t: nat)
    requires t in s.threads && s.threads[t] == Unheard
    ensures var r := Step(s, e); t in r.threads && r.threads[t] == Unheard
  {
    if Enabled(s, e) {
      match e
      case OpenDone(_) => SettlingUnheard(s, e, t);
      case OpenFailed(_) => SettlingUnheard(s, e, t);
      case CloseDone(_) => SettlingUnheard(s, e, t);
      case AllocatePort(_, _) => SettlingUnheard(s, e, t);
      case Enter(_) => RegionUnheard(s, e, t);
      case Close(_) => RegionUnheard(s, e, t);
      case _ => MovingUnheard(s, e, t);
    }
  }

  /** An open that nobody was told of is never closed: the device stays open, with its port, in every later state. */
  lemma {:induction false} UnheardStaysOpen(s: State, es: seq<Event>, t: nat)
    requires Inv(s) && t in s.threads && s.threads[t] == Unheard
    ensures var r := Run(s, es);
      r.state == Open && r.port && r.openCount >= 1 && t in r.threads && r.threads[t] == Unheard
    decreases |es|
  {
    if es == [] {
      GrantedOpen(s, t);
    } else {
      if Enabled(s, es[0]) {
        ApplyKeeps(s, es[0]);
      }
      StepUnheard(s, es[0], t);
      UnheardStaysOpen(Step(s, es[0]), es[1..], t);
    }
  }

  predicate Stands(s: State, t: nat, state: DeviceState, p: Phase) {
    t in s.threads && s.threads[t] == p && s.state == state
  }

  lemma Starts(s: State, t: nat)
    requires Stands(s, t, Init, Idle)
    ensures Stands(Step(Step(s, Lookup(t)), Enter(t)), t, Opening, Starting)
  {
    assert Stands(Step(s, Lookup(t)), t, Init, Looking);
  }

  lemma Succeeds(s: State, t: nat)
    requires Stands(s, t, Opening, Starting)
    ensures Stands(Step(Step(s, AllocatePort(t, true)), DriverOpen(t, true)), t, Opening, Succeeded)
  {
    assert Stands(Step(s, AllocatePort(t, true)), t, Opening, Calling);
  }

  lemma Unanswered(s: State, t: nat)
    requires Stands(s, t, Opening, Succeeded)
    ensures Stands(Step(Step(s, OpenDone(t)), NoReply(t)), t, Open, Unheard)
  {
    assert Stands(Step(s, OpenDone(t)), t, Open, Replying);
  }

  lemma RunTwo(s: State, a: Event, b: Event, es: seq<Event>)
    ensures Run(s, [a, b] + es) == Run(Step(Step(s, a), b), es)
  {
    var r := Step(s, a);
    assert ([a, b] + es)[1..] == [b] + es;
    assert ([b] + es)[1..] == es;
    assert Run(s, [a, b] + es) == Run(r, [b] + es);
    assert Run(r, [b] + es) == Run(Step(r, b), es);
  }

  /** The first client opens the device, and its reply port is not valid when the driver is done. */
  function UnheardRun(t: nat): seq<Event> {
    [Lookup(t), Enter(t)] + ([AllocatePort(t, true), DriverOpen(t, true)] + ([OpenDone(t), NoReply(t)] + []))
  }

  /** Such an open happens. */
  lemma UnheardHappens(threads: set<nat>, exclusive: bool, t: nat)
    requires t in threads
    ensures Stands(Run(Start(threads, exclusive), UnheardRun(t)), t, Open, Unheard)
  {
    var s0 := Start(threads, exclusive);
    var s1 := Step(Step(s0, Lookup(t)), Enter(t));
    var s2 := Step(Step(s1, AllocatePort(t, true)), DriverOpen(t, true));
    Starts(s0, t);
    Succeeds(s1, t);
    Unanswered(s2, t);
    RunTwo(s0, Lookup(t), Enter(t), [AllocatePort(t, true), DriverOpen(t, true)] + ([OpenDone(t), NoReply(t)] + []));
    RunTwo(s1, AllocatePort(t, true), DriverOpen(t, true), [OpenDone(t), NoReply(t)] + []);
    RunTwo(s2, OpenDone(t), NoReply(t), []);
  }

  // ---------------------------------------------------------------- coming to rest

  predicate NoneUnheard(threads: map<nat, Phase>) { forall t :: t in threads ==> threads[t] != Unheard }

  /** How many more steps a thread takes at most until it is idle, if it is let to, and the driver fails it. */
  function Rank(p: Phase): nat {
    match p
    case Idle => 0
    case Dropping => 1
    case Failed => 2
    case Closed => 2
    case Failing => 3
    case CallingClose => 3
    case Removing => 4
    case Calling => 4
    case Closer => 5
    case Starting => 5
    case Client => 6
    case Unheard => 7
    case Opened => 7
    case Replying => 7
    case Succeeded => 8
    case Looking => 8
    case Sleeping => 9
  }

  /** The next step on the way. */
  function Next(t: nat, p: Phase): Event
    requires p != Idle && p != Sleeping && p != Unheard
  {
    match p
    case Looking => Enter(t)
    case Starting => AllocatePort(t, false)
    case Calling => DriverOpen(t, false)
    case Succeeded => OpenDone(t)
    case Failing => RemovePort(t)
    case Failed => OpenFailed(t)
    case Opened => Convert(t)
    case Replying => Convert(t)
    case Client => CallClose(t)
    case Closer => Close(t)
    case Removing => RemovePort(t)
    case CallingClose => DriverClose(t)
    case Closed => CloseDone(t)
    case Dropping => Drop(t)
  }

  /** It may go: nobody else is opening or closing the device. */
  ghost predicate Free(s: State, t: nat) {
    t in s.threads && s.threads[t] != Sleeping && s.threads[t] != Unheard && (s.owner == None || s.owner == Some(t))
  }

  /** What one thread does on its way leaves the others as they were, but for waking them. */
  ghost predicate OthersSame(a: map<nat, Phase>, b: map<nat, Phase>, t: nat) {
    && b.Keys == a.Keys
    && forall u :: u in a && u != t ==> b[u] == a[u] || (a[u] == Sleeping && b[u] == Looking)
  }

  ghost predicate Advanced(s: State, r: State, t: nat) {
    t in s.threads && OthersSame(s.threads, r.threads, t) && Free(r, t) && Rank(r.threads[t]) < Rank(s.threads[t])
  }

  lemma CallingAdvances(s: State, t: nat)
    requires Free(s, t) && (s.threads[t] == Calling || s.threads[t] == Failing)
    ensures Advanced(s, Step(s, Next(t, s.threads[t])), t)
  {}

  lemma RemovingAdvances(s: State, t: nat)
    requires Free(s, t) && (s.threads[t] == Removing || s.threads[t] == CallingClose)
    ensures Advanced(s, Step(s, Next(t, s.threads[t])), t)
  {}

  lemma OpenedAdvances(s: State, t: nat)
    requires Free(s, t) && (s.threads[t] == Opened || s.threads[t] == Replying)
    ensures Advanced(s, Step(s, Next(t, s.threads[t])), t)
  {}

  lemma ClientAdvances(s: State, t: nat)
    requires Free(s, t) && (s.threads[t] == Client || s.threads[t] == Dropping)
    ensures Advanced(s, Step(s, Next(t, s.threads[t])), t)
  {}

  lemma StartingAdvances(s: State, t: nat)
    requires Free(s, t) && (s.threads[t] == Starting || s.threads[t] == Succeeded)
    ensures Advanced(s, Step(s, Next(t, s.threads[t])), t)
  {}

  lemma FailedAdvances(s: State, t: nat)
    requires Free(s, t) && s.threads[t] == Failed
    ensures Advanced(s, Step(s, Next(t, s.threads[t])), t)
  {}

  lemma ClosedAdvances(s: State, t: nat)
    requires Free(s, t) && s.threads[t] == Closed
    ensures Advanced(s, Step(s, Next(t, s.threads[t])), t)
  {}

  lemma LookingAdvances(s: State, t: nat)
    requires OwnerOk(s) && Free(s, t) && (s.threads[t] == Looking)
    ensures Advanced(s, Step(s, Next(t, s.threads[t])), t)
  {}

  lemma CloserAdvances(s: State, t: nat)
    requires Free(s, t) && (s.threads[t] == Closer)
    ensures Advanced(s, Step(s, Next(t, s.threads[t])), t)
  {}

  lemma Advances(s: State, t: nat)
    requires OwnerOk(s) && Free(s, t) && s.threads[t] != Idle
    ensures Advanced(s, Step(s, Next(t, s.threads[t])), t)
  {
    match s.threads[t]
    case Calling => CallingAdvances(s, t);
    case Failing => CallingAdvances(s, t);
    case Removing => RemovingAdvances(s, t);
    case CallingClose => RemovingAdvances(s, t);
    case Opened => OpenedAdvances(s, t);
    case Replying => OpenedAdvances(s, t);
    case Client => ClientAdvances(s, t);
    case Dropping => ClientAdvances(s, t);
    case Starting => StartingAdvances(s, t);
    case Succeeded => StartingAdvances(s, t);
    case Failed => FailedAdvances(s, t);
    case Closed => ClosedAdvances(s, t);
    case Looking => LookingAdvances(s, t);
    case Closer => CloserAdvances(s, t);
  }

  /** A thread that may go can be brought to idle by itself. */
  lemma {:induction false} Brought(s: State, t: nat) returns (es: seq<Event>)
    requires Inv(s) && Free(s, t)
    ensures var r := Run(s, es); Inv(r) && OthersSame(s.threads, r.threads, t) && r.threads[t] == Idle
    decreases Rank(s.threads[t])
  {
    es := [];
    var p := s.threads[t];
    if p != Idle {
      var e := Next(t, p);
      Advances(s, t);
      var r := Step(s, e);
      ApplyKeeps(s, e);
      var rest := Brought(r, t);
      es := [e] + rest;
      assert es[1..] == rest;
      assert Run(s, es) == Run(r, rest);
    }
  }

  predicate Busy(p: Phase) { p != Idle }

  /** Somebody may go, unless all are idle. */
  lemma SomebodyFree(s: State) returns (t: nat)
    requires Inv(s) && NoneUnheard(s.threads) && !AllIdle(s.threads)
    ensures Free(s, t) && Busy(s.threads[t])
  {
    if s.owner.Some? {
      t := s.owner.value;
    } else {
      t :| t in s.threads && s.threads[t] != Idle;
    }
  }

  lemma FewerBusy(a: map<nat, Phase>, b: map<nat, Phase>, t: nat)
    requires OthersSame(a, b, t) && t in a && Busy(a[t]) && b[t] == Idle
    ensures |With(b, Busy)| < |With(a, Busy)|
  {
    assert With(b, Busy) == With(a, Busy) - {t};
    SizeApart(With(a, Busy), t);
  }

  lemma RunAppends(s: State, a: seq<Event>, b: seq<Event>)
    ensures Run(s, a + b) == Run(Run(s, a), b)
    decreases |a|
  {
    if a == [] {
      assert a + b == b;
    } else {
      assert (a + b)[1..] == a[1..] + b;
      RunAppends(Step(s, a[0]), a[1..], b);
    }
  }

  /** If nobody's open went unheard, all can be brought to idle, one after the other. */
  lemma {:induction false} AllBrought(s: State) returns (es: seq<Event>)
    requires Inv(s) && NoneUnheard(s.threads)
    ensures AllIdle(Run(s, es).threads)
    decreases |With(s.threads, Busy)|
  {
    es := [];
    if !AllIdle(s.threads) {
      var t := SomebodyFree(s);
      var a := Brought(s, t);
      var r := Run(s, a);
      FewerBusy(s.threads, r.threads, t);
      var b := AllBrought(r);
      RunAppends(s, a, b);
      es := a + b;
    }
  }

  ghost predicate CanRest(s: State) { exists more :: AllIdle(Run(s, more).threads) }

  /** After every run, the device can come to rest if and only if nobody's open went unheard. */
  lemma RestExactly(threads: set<nat>, exclusive: bool, es: seq<Event>)
    ensures var s := Run(Start(threads, exclusive), es);
      NoneUnheard(s.threads) <==> CanRest(s)
  {
    var s := Run(Start(threads, exclusive), es);
    RunInv(threads, exclusive, es);
    if NoneUnheard(s.threads) {
      var more := AllBrought(s);
      assert AllIdle(Run(s, more).threads);
    } else {
      var t :| t in s.threads && s.threads[t] == Unheard;
      forall more ensures !AllIdle(Run(s, more).threads) {
        UnheardStaysOpen(s, more, t);
      }
    }
  }
}
