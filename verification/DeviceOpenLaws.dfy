/** Who gets a device open, who waits and who closes it, by what the other clients are doing (device/ds_routines.c). */
module DeviceOpenLaws {
  import opened Options
  import opened DeviceOpen

  /** Somebody is between setting OPENING or CLOSING and undoing it. */
  ghost predicate Busy(s: State) { exists u :: u in s.threads && (IsOpening(s.threads[u]) || IsClosing(s.threads[u])) }

  /** Somebody other than `t` has an open that counts. */
  ghost predicate Taken(s: State, t: nat) { exists u :: u in s.threads && u != t && Granted(s.threads[u]) }

  /** Nothing but the phase of the thread, the open count and who waits has changed. */
  ghost predicate Only(s: State, r: State, t: nat) {
    && OthersSame(s.threads, r.threads, t)
    && r.exclusive == s.exclusive && r.port == s.port && r.refs == s.refs && r.calls == s.calls
  }

  lemma {:induction false} ExclusiveKept(s: State, es: seq<Event>)
    ensures Run(s, es).exclusive == s.exclusive
    decreases |es|
  {
    if es != [] {
      ExclusiveKept(Step(s, es[0]), es[1..]);
    }
  }

  lemma BusyExactly(s: State)
    requires Inv(s)
    ensures Busy(s) <==> s.state == Opening || s.state == Closing
  {}

  lemma TakenExactly(s: State, t: nat)
    requires Inv(s) && t in s.threads
    ensures Taken(s, t) <==> s.openCount - (if Granted(s.threads[t]) then 1 else 0) > 0
  {
    var g := With(s.threads, Granted);
    SizeApart(g, t);
    if Taken(s, t) {
      var u :| u in s.threads && u != t && Granted(s.threads[u]);
      assert u in g - {t};
    } else {
      assert g - {t} == {};
    }
  }

  /**
    * The locked region of device_open, after every run: a thread waits exactly if somebody is opening or closing; it
    * is refused exactly if the device is exclusive and somebody has it; it is granted the open exactly if somebody
    * has a device that is not exclusive; and it starts to open the device exactly if nobody has it.
    */
  lemma EnterDecides(threads: set<nat>, exclusive: bool, es: seq<Event>, t: nat)
    requires Enabled(Run(Start(threads, exclusive), es), Enter(t))
    ensures var s := Run(Start(threads, exclusive), es);
      var r := Step(s, Enter(t));
      && Only(s, r, t)
      && if Busy(s) then r.threads[t] == Sleeping && r.ioWait && r.state == s.state && r.openCount == s.openCount
         else if Taken(s, t) then
           && r.state == Open && r.ioWait == s.ioWait
           && if exclusive then r.threads[t] == Dropping && r.openCount == s.openCount
              else r.threads[t] == Opened && r.openCount == s.openCount + 1
         else
           r.threads[t] == Starting && r.state == Opening && r.owner == Some(t) && r.openCount == 0
  {
    var s := Run(Start(threads, exclusive), es);
    RunInv(threads, exclusive, es);
    ExclusiveKept(Start(threads, exclusive), es);
    BusyExactly(s);
    TakenExactly(s, t);
  }

  /** The first locked region of device_close: the close of the last open starts to close the device. */
  lemma CloseDecides(threads: set<nat>, exclusive: bool, es: seq<Event>, t: nat)
    requires Enabled(Run(Start(threads, exclusive), es), Close(t))
    ensures var s := Run(Start(threads, exclusive), es);
      var r := Step(s, Close(t));
      && Only(s, r, t) && r.ioWait == s.ioWait && r.openCount == s.openCount - 1
      && if Taken(s, t) then r.threads[t] == Dropping && r.state == Open
         else r.threads[t] == Removing && r.state == Closing && r.owner == Some(t)
  {
    var s := Run(Start(threads, exclusive), es);
    RunInv(threads, exclusive, es);
    TakenExactly(s, t);
    GrantedOpen(s, t);
  }

  /** The events that end an open or a close. */
  predicate Settles(e: Event) { e.OpenDone? || e.OpenFailed? || e.CloseDone? || (e.AllocatePort? && !e.ok) }

  /** All who waited look again. */
  ghost predicate Awake(s: State, r: State, t: nat) {
    && r.threads.Keys == s.threads.Keys && !r.ioWait && r.owner == None
    && forall u | u in s.threads && u != t ::
         r.threads[u] == if s.threads[u] == Sleeping then Looking else s.threads[u]
  }

  lemma SettledWakes(s: State, t: nat, p: Phase, state: DeviceState, count: int)
    requires SleepOk(s) && t in s.threads
    ensures Awake(s, Settled(Put(s, t, p).(openCount := count), state), t)
  {
    if !s.ioWait {
      forall u | u in s.threads ensures s.threads[u] != Sleeping {}
    }
  }

  lemma NoneOpen(s: State, e: Event)
    requires Inv(s) && Settles(e) && Enabled(s, e)
    ensures s.openCount == 0
  {}

  lemma SettledAs(s: State, e: Event)
    requires Settles(e) && Enabled(s, e)
    ensures Apply(s, e) ==
      if e.OpenDone? then Settled(Put(s, e.t, Replying).(openCount := 1), Open)
      else Settled(Put(s, e.t, Dropping).(openCount := s.openCount), Init)
  {}

  /** When an open or a close ends, all who wait look again, and only a successful open leaves the device open. */
  lemma SettleDecides(threads: set<nat>, exclusive: bool, es: seq<Event>, e: Event)
    requires Settles(e) && Enabled(Run(Start(threads, exclusive), es), e)
    ensures var s := Run(Start(threads, exclusive), es);
      var r := Step(s, e);
      && Awake(s, r, e.t)
      && if e.OpenDone? then r.state == Open && r.threads[e.t] == Replying && r.openCount == 1
         else r.state == Init && r.threads[e.t] == Dropping && r.openCount == 0
  {
    var s := Run(Start(threads, exclusive), es);
    RunInv(threads, exclusive, es);
    NoneOpen(s, e);
    SettledAs(s, e);
    if e.OpenDone? {
      SettledWakes(s, e.t, Replying, Open, 1);
    } else {
      SettledWakes(s, e.t, Dropping, Init, 0);
    }
  }

  /** What a step does to the thread that takes it. */
  lemma OwnGrant(s: State, e: Event)
    requires Enabled(s, e)
    ensures Begins(s, e, Apply(s, e).threads[e.t]) && Finishes(s, e, Apply(s, e).threads[e.t])
  {
    if e.Enter? || e.Close? {
      RegionGrant(s, e);
    } else if Settles(e) {
      SettledAs(s, e);
    } else {
      MovedGrant(s, e);
    }
  }

  ghost predicate Begins(s: State, e: Event, q: Phase)
    requires Enabled(s, e)
  {
    !Granted(s.threads[e.t]) && Granted(q) <==> e.OpenDone? || (e.Enter? && s.state == Open && !s.exclusive)
  }

  ghost predicate Finishes(s: State, e: Event, q: Phase)
    requires Enabled(s, e)
  {
    Granted(s.threads[e.t]) && !Granted(q) <==> e.Close?
  }

  lemma RegionGrant(s: State, e: Event)
    requires Enabled(s, e) && (e.Enter? || e.Close?)
    ensures Begins(s, e, Apply(s, e).threads[e.t]) && Finishes(s, e, Apply(s, e).threads[e.t])
  {}

  lemma MovedGrant(s: State, e: Event)
    requires Enabled(s, e) && !Settles(e) && !e.Enter? && !e.Close?
    ensures Begins(s, e, Apply(s, e).threads[e.t]) && Finishes(s, e, Apply(s, e).threads[e.t])
  {}

  lemma OtherGrant(s: State, e: Event, t: nat)
    requires Enabled(s, e) && t in s.threads && t != e.t
    ensures t in Apply(s, e).threads && (Granted(Apply(s, e).threads[t]) <==> Granted(s.threads[t]))
  {
    if Settles(e) {
      SettledOther(s, e, t);
    } else {
      MovedOther(s, e, t);
    }
  }

  lemma SettledOther(s: State, e: Event, t: nat)
    requires Enabled(s, e) && Settles(e) && t in s.threads && t != e.t
    ensures t in Apply(s, e).threads
    ensures Apply(s, e).threads[t] in {s.threads[t], Looking} && (Granted(s.threads[t]) ==>
      Apply(s, e).threads[t] == s.threads[t])
  {}

  lemma MovedOther(s: State, e: Event, t: nat)
    requires Enabled(s, e) && !Settles(e) && t in s.threads && t != e.t
    ensures t in Apply(s, e).threads && Apply(s, e).threads[t] == s.threads[t]
  {}

  /** A thread's open begins to count exactly in these two ways, and ends to count exactly when it is closed. */
  lemma GrantedExactly(threads: set<nat>, exclusive: bool, es: seq<Event>, e: Event, t: nat)
    requires t in Run(Start(threads, exclusive), es).threads
    ensures var s := Run(Start(threads, exclusive), es);
      var r := Step(s, e);
      && t in r.threads
      && (!Granted(s.threads[t]) && Granted(r.threads[t]) <==>
            Enabled(s, e) && (e == OpenDone(t) || (e == Enter(t) && s.state == Open && !exclusive)))
      && (Granted(s.threads[t]) && !Granted(r.threads[t]) <==> Enabled(s, e) && e == Close(t))
  {
    ExclusiveKept(Start(threads, exclusive), es);
    StepGrant(Run(Start(threads, exclusive), es), e, t);
  }

  lemma StepGrant(s: State, e: Event, t: nat)
    requires t in s.threads
    ensures t in Step(s, e).threads
    ensures !Granted(s.threads[t]) && Granted(Step(s, e).threads[t]) <==>
      Enabled(s, e) && (e == OpenDone(t) || (e == Enter(t) && s.state == Open && !s.exclusive))
    ensures Granted(s.threads[t]) && !Granted(Step(s, e).threads[t]) <==> Enabled(s, e) && e == Close(t)
  {
    if Enabled(s, e) {
      if e.t == t {
        OwnGrant(s, e);
      } else {
        OtherGrant(s, e, t);
      }
    }
  }
}
