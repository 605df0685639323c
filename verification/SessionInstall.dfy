/** The table part of net_set_filter and hash_ent_remove (device/net_io.c). */
module SessionInstall {
  import opened Options
  import opened Bpf
  import opened SessionTable

  // ---------------------------------------------------------------- taking entries out

  /** Whether taking this entry out frees the header: the last one does, unless it is about to be used. */
  predicate Freed(h: Header, i: nat, j: nat, used: bool)
    requires i < |h.table| && j < |h.table[i]|
  {
    j == 0 && |h.table[i]| == 1 && h.refCount == 1 && !used
  }

  /** hash_ent_remove on the header. */
  function Removed(h: Header, i: nat, j: nat, used: bool): Header
    requires i < |h.table| && j < |h.table[i]|
  {
    var rest := h.(refCount := h.refCount - 1, table := h.table[i := RemoveAt(h.table[i], j)]);
    if Freed(h, i, j, used) then rest.(keyCount := 0) else rest
  }

  /** Only the sessions of a header changed, or it was freed. */
  ghost predicate SameHeader(h: Header, h': Header) {
    h'.filter == h.filter && h'.priority == h.priority && (h'.keyCount == h.keyCount || h'.keyCount == 0)
  }

  /** A header is well formed, and free exactly when empty; one about to be used may be empty. */
  ghost predicate Settled(h: Header, used: bool) { HeaderOk(h) && (used || AtRest(h)) }

  lemma RemovedSettled(h: Header, i: nat, j: nat, used: bool)
    requires i < HASH_SIZE && HeaderOk(h) && j < |h.table[i]|
    ensures Settled(Removed(h, i, j, used), used)
    ensures h.keyCount > 0 && Removed(h, i, j, used).keyCount == (if Freed(h, i, j, used) then 0 else h.keyCount)
    ensures SameHeader(h, Removed(h, i, j, used)) && (Freed(h, i, j, used) ==> Total(Removed(h, i, j, used).table) == 0)
  {
    var b := h.table[i];
    var r := Removed(h, i, j, used);
    TotalUpdate(h.table, i, RemoveAt(b, j));
    assert EntryOk(h, i, b[j]);
    forall l, e | 0 <= l < HASH_SIZE && e in r.table[l] ensures EntryOk(r, l, e) {
      RemovedEntry(h, i, j, used, l, e);
    }
    if Total(r.table) == 0 {
      TotalAtLeast(r.table, i);
    }
  }

  lemma RemovedEntry(h: Header, i: nat, j: nat, used: bool, l: nat, e: Entry)
    requires i < HASH_SIZE && HeaderOk(h) && j < |h.table[i]| && l < HASH_SIZE && e in Removed(h, i, j, used).table[l]
    ensures EntryOk(Removed(h, i, j, used), l, e)
  {
    var r := Removed(h, i, j, used);
    if l == i {
      assert e in h.table[i];
    }
    assert EntryOk(h, l, e);
    if Freed(h, i, j, used) {
      TotalUpdate(h.table, i, []);
      assert RemoveAt(h.table[i], j) == [];
      TotalAtLeast(h.table[i := []], l);
      assert false;
    }
  }

  /** The entries whose port is not gone. */
  function Kept(b: seq<Entry>, gone: set<nat>): seq<Entry> {
    if b == [] then []
    else if b[|b| - 1].port in gone then Kept(b[..|b| - 1], gone)
    else Kept(b[..|b| - 1], gone) + [b[|b| - 1]]
  }

  /**
    * What the collection of dead sessions leaves of a bucket.  When the first entry goes, the second
    * becomes the head and the walk takes it for the end of the ring.
    */
  function Scanned(b: seq<Entry>, gone: set<nat>): seq<Entry> {
    if b == [] then [] else if b[0].port in gone then b[1..] else Kept(b, gone)
  }

  lemma {:induction false} KeptSome(b: seq<Entry>, gone: set<nat>)
    ensures |Kept(b, gone)| <= |b| && forall e :: e in Kept(b, gone) ==> e in b && e.port !in gone
  {
    if b != [] {
      KeptSome(b[..|b| - 1], gone);
    }
  }

  // ---------------------------------------------------------------- the collection of dead sessions

  predicate AllAlive(b: seq<Entry>, gone: set<nat>) { forall e :: e in b ==> e.port !in gone }

  /** Not one session of the header is left whose port is gone. */
  predicate Clean(h: Header, gone: set<nat>) {
    forall i :: 0 <= i < |h.table| ==> AllAlive(h.table[i], gone)
  }

  /** How many entries at the front of a bucket are dead. */
  function Leading(b: seq<Entry>, gone: set<nat>): (n: nat)
    ensures n <= |b|
  {
    if b == [] || b[0].port !in gone then 0 else 1 + Leading(b[1..], gone)
  }

  /** So many collections make a bucket clean. */
  predicate Cleanable(b: seq<Entry>, gone: set<nat>, n: nat) {
    Leading(b, gone) < n || AllAlive(b[n..], gone)
  }

  function ScannedTimes(b: seq<Entry>, gone: set<nat>, n: nat): seq<Entry>
    decreases n
  {
    if n == 0 then b else ScannedTimes(Scanned(b, gone), gone, n - 1)
  }

  /** One collection finds all dead sessions of a bucket unless the first is dead and another one too. */
  lemma ScannedAlive(b: seq<Entry>, gone: set<nat>)
    ensures AllAlive(Scanned(b, gone), gone) <==> b == [] || b[0].port !in gone || AllAlive(b[1..], gone)
  {
    KeptSome(b, gone);
  }

  lemma KeptAlive(b: seq<Entry>, gone: set<nat>)
    requires AllAlive(b, gone)
    ensures Kept(b, gone) == b
  {
    if b != [] {
      KeptAlive(b[..|b| - 1], gone);
    }
  }

  lemma {:induction false} ScannedStays(b: seq<Entry>, gone: set<nat>, n: nat)
    requires AllAlive(b, gone)
    ensures ScannedTimes(b, gone, n) == b
  {
    if n > 0 {
      KeptAlive(b, gone);
      ScannedStays(b, gone, n - 1);
    }
  }

  lemma FirstAlive(b: seq<Entry>, gone: set<nat>, n: nat)
    requires n > 0 && (b == [] || b[0].port !in gone)
    ensures AllAlive(ScannedTimes(b, gone, n), gone) && Cleanable(b, gone, n)
  {
    KeptSome(b, gone);
    ScannedStays(Scanned(b, gone), gone, n - 1);
  }

  lemma FirstDead(b: seq<Entry>, gone: set<nat>, n: nat)
    requires n > 0 && b != [] && b[0].port in gone
    ensures Cleanable(b, gone, n) <==> Cleanable(b[1..], gone, n - 1)
  {
    assert n <= |b| ==> b[n..] == b[1..][n - 1..];
  }

  /** Each collection that finds the first entry dead takes out that one alone. */
  lemma {:induction false} CleanableExactly(b: seq<Entry>, gone: set<nat>, n: nat)
    ensures AllAlive(ScannedTimes(b, gone, n), gone) <==> Cleanable(b, gone, n)
    decreases n
  {
    if n == 0 {
      assert b[0..] == b;
    } else if b == [] || b[0].port !in gone {
      FirstAlive(b, gone, n);
    } else {
      CleanableExactly(b[1..], gone, n - 1);
      FirstDead(b, gone, n);
    }
  }

  function SweptTable(table: seq<seq<Entry>>, gone: set<nat>): (r: seq<seq<Entry>>)
    ensures |r| == |table|
  {
    seq(|table|, i requires 0 <= i < |table| => Scanned(table[i], gone))
  }

  /** What a collection leaves of a header: without sessions it is free, unless it is about to be used. */
  function Swept(h: Header, gone: set<nat>, used: bool): Header {
    var table := SweptTable(h.table, gone);
    h.(refCount := Total(table), table := table, keyCount := if Total(table) == 0 && !used then 0 else h.keyCount)
  }

  function SweptTimes(h: Header, gone: set<nat>, used: bool, n: nat): Header
    decreases n
  {
    if n == 0 then h else SweptTimes(Swept(h, gone, used), gone, used, n - 1)
  }

  lemma {:induction false} SweptTimesTable(h: Header, gone: set<nat>, used: bool, n: nat)
    ensures var r := SweptTimes(h, gone, used, n);
      |r.table| == |h.table| && forall i :: 0 <= i < |h.table| ==> r.table[i] == ScannedTimes(h.table[i], gone, n)
    decreases n
  {
    if n > 0 {
      SweptTimesTable(Swept(h, gone, used), gone, used, n - 1);
    }
  }

  /**
    * All dead sessions of a header go exactly if in every bucket there are fewer of them at the front than
    * collections, or none behind as many entries as there are collections.
    */
  lemma SweptClean(h: Header, gone: set<nat>, used: bool, n: nat)
    ensures Clean(SweptTimes(h, gone, used, n), gone)
      <==> forall i :: 0 <= i < |h.table| ==> Cleanable(h.table[i], gone, n)
  {
    SweptTimesTable(h, gone, used, n);
    forall i | 0 <= i < |h.table|
      ensures AllAlive(SweptTimes(h, gone, used, n).table[i], gone) <==> Cleanable(h.table[i], gone, n)
    {
      CleanableExactly(h.table[i], gone, n);
    }
  }

  lemma ScannedSome(b: seq<Entry>, gone: set<nat>, e: Entry)
    requires e in Scanned(b, gone)
    ensures e in b
  {
    KeptSome(b, gone);
  }

  lemma SweptSettled(h: Header, gone: set<nat>, used: bool)
    requires Settled(h, used)
    ensures Settled(Swept(h, gone, used), used) && SameHeader(h, Swept(h, gone, used))
  {
    var r := Swept(h, gone, used);
    if h.keyCount == 0 && !used {
      SweptFree(h, gone);
    }
    forall i, e | 0 <= i < HASH_SIZE && e in r.table[i] ensures EntryOk(r, i, e) {
      ScannedSome(h.table[i], gone, e);
      assert EntryOk(h, i, e);
      TotalAtLeast(r.table, i);
    }
  }

  /** A free header stays as it is. */
  lemma SweptFree(h: Header, gone: set<nat>)
    requires AtRest(h) && h.keyCount == 0
    ensures Swept(h, gone, false) == h
  {
    forall i | 0 <= i < HASH_SIZE ensures Scanned(h.table[i], gone) == h.table[i] {
      TotalAtLeast(h.table, i);
    }
    assert SweptTable(h.table, gone) == h.table;
  }

  // ---------------------------------------------------------------- the lists of an interface

  predicate In(f: seq<Insn>) { |f| > 0 && f[0].code % 2 == 1 }        // NETF_IN
  predicate Out(f: seq<Insn>) { |f| > 0 && f[0].code / 2 % 2 == 1 }   // NETF_OUT

  /** The first word says which lists: bit 0 the one for packets that come in, bit 1 the other. */
  lemma ListsExactly(f: seq<Insn>)
    ensures In(f) <==> |f| > 0 && f[0].code % 4 in {1, 3}
    ensures Out(f) <==> |f| > 0 && f[0].code % 4 in {2, 3}
  {}

  lemma {:induction false} DroppedDistinct(list: seq<nat>, s: nat)
    requires Distinct(list)
    ensures Distinct(Dropped(list, s))
  {
    if list != [] {
      DroppedDistinct(list[1..], s);
      assert list[0] !in list[1..];
    }
  }

  lemma {:induction false} DroppedNone(list: seq<nat>, s: nat)
    requires s !in list
    ensures Dropped(list, s) == list
  {
    if list != [] {
      DroppedNone(list[1..], s);
    }
  }

  predicate InUse(slots: seq<Header>, s: nat) { s < |slots| && slots[s].keyCount > 0 }

  /** The headers of a list that are in use. */
  function Live(list: seq<nat>, slots: seq<Header>): (r: seq<nat>)
    ensures forall x :: x in r <==> x in list && InUse(slots, x)
  {
    if list == [] then []
    else if InUse(slots, list[0]) then [list[0]] + Live(list[1..], slots)
    else Live(list[1..], slots)
  }

  lemma {:induction false} LiveAll(list: seq<nat>, slots: seq<Header>)
    requires forall x :: x in list ==> InUse(slots, x)
    ensures Live(list, slots) == list
  {
    if list != [] {
      LiveAll(list[1..], slots);
    }
  }

  /** Headers are only freed: what is in use later was in use before. */
  ghost predicate Fewer(slots: seq<Header>, slots': seq<Header>) {
    forall x {:trigger InUse(slots', x)} :: InUse(slots', x) ==> InUse(slots, x)
  }

  lemma {:induction false} LiveTwice(list: seq<nat>, slots: seq<Header>, slots': seq<Header>)
    requires Fewer(slots, slots')
    ensures Live(Live(list, slots), slots') == Live(list, slots')
  {
    if list != [] {
      LiveTwice(list[1..], slots, slots');
    }
  }

  /** Freeing one header drops that one. */
  lemma {:induction false} LiveDropped(list: seq<nat>, slots: seq<Header>, s: nat)
    requires !InUse(slots, s) && forall x :: x in list && x != s ==> InUse(slots, x)
    ensures Live(list, slots) == Dropped(list, s)
  {
    if list != [] {
      LiveDropped(list[1..], slots, s);
    }
  }

  // ---------------------------------------------------------------- the choice of a header

  /** A header that a program can share. */
  predicate Fits(h: Header, program: seq<Insn>, priority: int) {
    h.keyCount > 0 && h.priority == priority && Equal(h.filter, program)
  }

  /** A header in use fits if it has the priority and the instructions of the program, keys (0x17) apart. */
  lemma FitsExactly(h: Header, program: seq<Insn>, priority: int)
    ensures Fits(h, program, priority) <==>
      && h.keyCount > 0 && h.priority == priority && |h.filter| == |program|
      && forall i | 0 <= i < |program| :: h.filter[i] == program[i] || (h.filter[i].code == 0x17 == program[i].code)
  {}

  predicate FitsAt(slots: seq<Header>, s: nat, program: seq<Insn>, priority: int) {
    s < |slots| && Fits(slots[s], program, priority)
  }

  /** The first header of a list that the program can share. */
  function FirstFit(slots: seq<Header>, list: seq<nat>, program: seq<Insn>, priority: int): (r: Option<nat>)
    ensures r.Some? ==> r.value in list && FitsAt(slots, r.value, program, priority)
    ensures r.None? ==> forall x :: x in list ==> !FitsAt(slots, x, program, priority)
  {
    if list == [] then None
    else if FitsAt(slots, list[0], program, priority) then Some(list[0])
    else FirstFit(slots, list[1..], program, priority)
  }

  lemma {:induction false} FirstFitMore(slots: seq<Header>, list: seq<nat>, n: nat, program: seq<Insn>, priority: int)
    requires n < |list|
    ensures var c := FirstFit(slots, list[..n], program, priority);
      FirstFit(slots, list[..n + 1], program, priority)
      == if c.Some? then c else if FitsAt(slots, list[n], program, priority) then Some(list[n]) else None
  {
    if n == 0 {
      assert list[..1][1..] == [];
    } else {
      assert list[..n][1..] == list[1..][..n - 1] && list[..n + 1][1..] == list[1..][..n];
      if !FitsAt(slots, list[0], program, priority) {
        FirstFitMore(slots, list[1..], n - 1, program, priority);
      }
    }
  }

  /** The headers that went or changed did not fit, so the choice is the same. */
  lemma {:induction false} FirstFitSame(slots: seq<Header>, slots': seq<Header>, list: seq<nat>, program: seq<Insn>,
                                        priority: int)
    requires forall x :: x in list ==> (FitsAt(slots, x, program, priority) <==> FitsAt(slots', x, program, priority))
    ensures FirstFit(slots', Live(list, slots'), program, priority) == FirstFit(slots, list, program, priority)
  {
    if list != [] {
      FirstFitSame(slots, slots', list[1..], program, priority);
      assert FitsAt(slots', list[0], program, priority) ==> InUse(slots', list[0]);
    }
  }

  /** The header to share: the first that fits on the lists the program is for. */
  function Choose(slots: seq<Header>, input: seq<nat>, output: seq<nat>, program: seq<Insn>,
                  priority: int): Option<nat> {
    var c := if In(program) then FirstFit(slots, input, program, priority) else None;
    if c.None? && Out(program) then FirstFit(slots, output, program, priority) else c
  }

  /** How often the collection comes to a header: once for each of the program's lists that it is on. */
  function Visits(input: seq<nat>, output: seq<nat>, program: seq<Insn>, s: nat): nat {
    (if In(program) && s in input then 1 else 0) + (if Out(program) && s in output then 1 else 0)
  }

  /** All headers after the collection; the chosen one is kept even without sessions. */
  function Collected(slots: seq<Header>, input: seq<nat>, output: seq<nat>, program: seq<Insn>, gone: set<nat>,
                     chosen: Option<nat>): (r: seq<Header>)
    ensures |r| == |slots|
  {
    seq(|slots|, s requires 0 <= s < |slots| =>
      SweptTimes(slots[s], gone, chosen == Some(s), Visits(input, output, program, s)))
  }

  /**
    * Which dead sessions a header loses in an installation: all of them exactly if in every bucket fewer are
    * at the front than the collection comes to the header, or none is behind as many entries.
    */
  lemma DeadSessionsGo(slots: seq<Header>, input: seq<nat>, output: seq<nat>, program: seq<Insn>, gone: set<nat>,
                       chosen: Option<nat>, s: nat)
    requires s < |slots|
    ensures Clean(Collected(slots, input, output, program, gone, chosen)[s], gone)
      <==> forall i :: 0 <= i < |slots[s].table| ==>
        Cleanable(slots[s].table[i], gone, Visits(input, output, program, s))
  {
    SweptClean(slots[s], gone, chosen == Some(s), Visits(input, output, program, s));
  }

  // ---------------------------------------------------------------- the walk along a list

  /** The headers before place `n` of the list were swept; the others are as they were. */
  ghost predicate Visited(slots: seq<Header>, slots': seq<Header>, list: seq<nat>, n: nat, gone: set<nat>,
                          mine: Option<nat>) {
    && |slots| == |slots'| == HEADERS && n <= |list|
    && (forall s {:trigger slots'[s]} :: 0 <= s < HEADERS ==>
          slots'[s] == if s in list[..n] then Swept(slots[s], gone, mine == Some(s)) else slots[s])
  }

  lemma VisitOne(slots0: seq<Header>, slots: seq<Header>, list: seq<nat>, n: nat, gone: set<nat>,
                 before: Option<nat>, mine: Option<nat>)
    requires Visited(slots0, slots, list, n, gone, before) && Distinct(list) && n < |list| && list[n] < HEADERS
    requires mine == before || (before == None && mine == Some(list[n]))
    ensures var s := list[n];
      Visited(slots0, slots[s := Swept(slots[s], gone, mine == Some(s))], list, n + 1, gone, mine)
  {
    assert list[..n + 1] == list[..n] + [list[n]];
    assert list[n] !in list[..n];
  }

  ghost predicate SettledAt(slots: seq<Header>, s: int, mine: Option<nat>) {
    0 <= s < |slots| && Settled(slots[s], mine == Some(s))
  }

  /** Between operations every header is free exactly when it has no sessions, and finds them by their keys. */
  lemma TableAtRest(sessions: Sessions, s: nat, keys: seq<u32>)
    requires sessions.Valid(None) && s < HEADERS
    ensures AtRest(sessions.slots[s]) && sessions.slots[s].refCount == Total(sessions.slots[s].table)
    ensures Match(sessions.slots[s], keys).Some? <==> HasKeys(sessions.slots[s], keys)
  {
    assert SettledAt(sessions.slots, s, None);
    MatchSearchesAll(sessions.slots[s], keys);
  }

  ghost predicate AllSettled(slots: seq<Header>, mine: Option<nat>) {
    && |slots| == HEADERS
    && (forall s {:trigger SettledAt(slots, s, mine)} :: 0 <= s < HEADERS ==> SettledAt(slots, s, mine))
  }

  /** What is no header is not about to be used. */
  lemma SettledSame(slots: seq<Header>, mine: Option<nat>, mine': Option<nat>)
    requires AllSettled(slots, mine) && mine in {None, Some(HEADERS)} && mine' in {None, Some(HEADERS)}
    ensures AllSettled(slots, mine')
  {
    forall s | 0 <= s < HEADERS ensures SettledAt(slots, s, mine') {
      assert SettledAt(slots, s, mine);
    }
  }

  /** Changing one header leaves the others settled. */
  lemma SettledUpdate(slots: seq<Header>, s: nat, h: Header, mine: Option<nat>, mine': Option<nat>)
    requires AllSettled(slots, mine) && s < HEADERS && Settled(h, mine' == Some(s))
    requires mine == mine' || (mine in {None, Some(s)} && mine' in {None, Some(s)})
    ensures AllSettled(slots[s := h], mine') && |h.table| == HASH_SIZE
  {
    var slots' := slots[s := h];
    forall t | 0 <= t < HEADERS ensures SettledAt(slots', t, mine') {
      assert SettledAt(slots, t, mine);
    }
  }

  // ---------------------------------------------------------------- both walks

  /** A pass along a list, if the program is for it. */
  ghost predicate Pass(slots: seq<Header>, slots': seq<Header>, list: seq<nat>, on: bool, program: seq<Insn>,
                       priority: int, gone: set<nat>, before: Option<nat>, mine: Option<nat>) {
    if on then
      && Visited(slots, slots', list, |list|, gone, mine)
      && mine == if before.Some? then before else FirstFit(slots, list, program, priority)
    else slots' == slots && |slots| == HEADERS && mine == before
  }

  lemma PassOne(slots: seq<Header>, slots': seq<Header>, list: seq<nat>, on: bool, program: seq<Insn>, priority: int,
                gone: set<nat>, before: Option<nat>, mine: Option<nat>, s: nat)
    requires Pass(slots, slots', list, on, program, priority, gone, before, mine) && s < HEADERS
    ensures slots'[s] == if on && s in list then Swept(slots[s], gone, mine == Some(s)) else slots[s]
  {
    if on {
      assert list[..|list|] == list;
    }
  }

  /** A header that the first pass did not choose, though it came to it, does not fit afterwards either. */
  lemma PassSame(slots: seq<Header>, slots': seq<Header>, list: seq<nat>, on: bool, program: seq<Insn>, priority: int,
                 gone: set<nat>, s: nat)
    requires AllSettled(slots, None) && Pass(slots, slots', list, on, program, priority, gone, None, None)
    ensures FitsAt(slots, s, program, priority) <==> FitsAt(slots', s, program, priority)
  {
    if s < HEADERS {
      PassOne(slots, slots', list, on, program, priority, gone, None, None, s);
      assert SettledAt(slots, s, None);
      SweptSettled(slots[s], gone, false);
    }
  }

  /** The second pass chooses what it would have chosen first. */
  lemma PassChooses(slots0: seq<Header>, slots1: seq<Header>, slots2: seq<Header>, input: seq<nat>, output: seq<nat>,
                    program: seq<Insn>, priority: int, gone: set<nat>, m1: Option<nat>, m2: Option<nat>)
    requires AllSettled(slots0, None) && Pass(slots0, slots1, input, In(program), program, priority, gone, None, m1)
    requires Pass(slots1, slots2, Live(output, slots1), Out(program), program, priority, gone, m1, m2)
    ensures m2 == Choose(slots0, input, output, program, priority)
    ensures forall s :: In(program) && s in input ==> (m1 == Some(s) <==> m2 == Some(s))
  {
    if m1.None? {
      forall s ensures FitsAt(slots0, s, program, priority) <==> FitsAt(slots1, s, program, priority) {
        PassSame(slots0, slots1, input, In(program), program, priority, gone, s);
      }
      FirstFitSame(slots0, slots1, output, program, priority);
    }
  }

  /** A header after both passes. */
  lemma PassTwice(slots0: seq<Header>, slots1: seq<Header>, slots2: seq<Header>, input: seq<nat>, output: seq<nat>,
                  program: seq<Insn>, priority: int, gone: set<nat>, before: Option<nat>, m1: Option<nat>,
                  m2: Option<nat>, s: nat)
    requires AllSettled(slots0, None)
    requires Pass(slots0, slots1, input, In(program), program, priority, gone, before, m1)
    requires Pass(slots1, slots2, Live(output, slots1), Out(program), program, priority, gone, m1, m2)
    requires s < HEADERS && (s in output ==> InUse(slots0, s))
    requires In(program) && s in input ==> (m1 == Some(s) <==> m2 == Some(s))
    ensures slots2[s] == SweptTimes(slots0[s], gone, m2 == Some(s), Visits(input, output, program, s))
  {
    PassOne(slots0, slots1, input, In(program), program, priority, gone, before, m1, s);
    PassOne(slots1, slots2, Live(output, slots1), Out(program), program, priority, gone, m1, m2, s);
    var h := slots1[s];
    if Out(program) && s in output && !InUse(slots1, s) {
      assert SettledAt(slots0, s, None);
      SweptSettled(slots0[s], gone, m1 == Some(s));
      assert m1 != Some(s);
      SweptFree(h, gone);
    }
    TwoSweeps(slots0[s], gone, m2 == Some(s));
  }

  lemma TwoSweeps(h: Header, gone: set<nat>, used: bool)
    ensures SweptTimes(h, gone, used, 0) == h && SweptTimes(h, gone, used, 1) == Swept(h, gone, used)
    ensures SweptTimes(h, gone, used, 2) == Swept(Swept(h, gone, used), gone, used)
  {
    assert SweptTimes(Swept(h, gone, used), gone, used, 1) == Swept(Swept(h, gone, used), gone, used);
  }

  lemma PassAll(slots0: seq<Header>, slots1: seq<Header>, slots2: seq<Header>, input: seq<nat>, output: seq<nat>,
                program: seq<Insn>, priority: int, gone: set<nat>, m1: Option<nat>, m2: Option<nat>)
    requires AllSettled(slots0, None) && Pass(slots0, slots1, input, In(program), program, priority, gone, None, m1)
    requires Pass(slots1, slots2, Live(output, slots1), Out(program), program, priority, gone, m1, m2)
    requires forall s :: s in output ==> InUse(slots0, s)
    ensures m2 == Choose(slots0, input, output, program, priority)
    ensures slots2 == Collected(slots0, input, output, program, gone, m2)
  {
    PassChooses(slots0, slots1, slots2, input, output, program, priority, gone, m1, m2);
    var r := Collected(slots0, input, output, program, gone, m2);
    forall s | 0 <= s < HEADERS ensures slots2[s] == r[s] {
      PassTwice(slots0, slots1, slots2, input, output, program, priority, gone, None, m1, m2, s);
    }
  }

  /** For a plain filter no header is chosen. */
  lemma PassPlain(slots0: seq<Header>, slots1: seq<Header>, slots2: seq<Header>, input: seq<nat>, output: seq<nat>,
                  program: seq<Insn>, priority: int, gone: set<nat>, m1: Option<nat>, m2: Option<nat>)
    requires AllSettled(slots0, None)
    requires Pass(slots0, slots1, input, In(program), program, priority, gone, Some(HEADERS), m1)
    requires Pass(slots1, slots2, Live(output, slots1), Out(program), program, priority, gone, m1, m2)
    requires forall s :: s in output ==> InUse(slots0, s)
    ensures m2 == Some(HEADERS) && slots2 == Collected(slots0, input, output, program, gone, None)
  {
    var r := Collected(slots0, input, output, program, gone, None);
    forall s | 0 <= s < HEADERS ensures slots2[s] == r[s] {
      PassTwice(slots0, slots1, slots2, input, output, program, priority, gone, Some(HEADERS), m1, m2, s);
    }
  }

  // ---------------------------------------------------------------- an installation

  /** The first free header, or the number of headers. */
  predicate FirstFree(slots: seq<Header>, s: nat) {
    s <= |slots| && (s < |slots| ==> slots[s].keyCount == 0) && forall t :: 0 <= t < s ==> slots[t].keyCount > 0
  }

  /** The headers after the collection, and after a free one was taken if none can be shared. */
  function Prepared(slots: seq<Header>, input: seq<nat>, output: seq<nat>, program: seq<Insn>, m: nat, priority: int,
                    gone: set<nat>, s: nat): (r: seq<Header>)
    requires m < |program|
    ensures |r| == |slots|
  {
    var chosen := Choose(slots, input, output, program, priority);
    var swept := Collected(slots, input, output, program, gone, chosen);
    if chosen.None? && s < |swept| then swept[s := Empty(program, m, priority)] else swept
  }

  /** The place of the new session and the lists: the chosen header, or the first free one, which is listed. */
  ghost predicate Placed(slots: seq<Header>, input: seq<nat>, output: seq<nat>, input': seq<nat>, output': seq<nat>,
                         program: seq<Insn>, priority: int, gone: set<nat>, s: nat) {
    var chosen := Choose(slots, input, output, program, priority);
    var swept := Collected(slots, input, output, program, gone, chosen);
    var listed := chosen.None? && s < |swept|;
    && (if chosen.Some? then s == chosen.value < |slots| else FirstFree(swept, s))
    && input' == Live(input, swept) + (if listed && In(program) then [s] else [])
    && output' == Live(output, swept) + (if listed && Out(program) then [s] else [])
  }

  /** A header that is chosen is kept and still fits. */
  lemma ChosenFits(slots: seq<Header>, input: seq<nat>, output: seq<nat>, program: seq<Insn>, priority: int,
                   gone: set<nat>)
    requires AllSettled(slots, None) && Choose(slots, input, output, program, priority).Some?
    ensures var c := Choose(slots, input, output, program, priority);
      c.value < HEADERS && Fits(Collected(slots, input, output, program, gone, c)[c.value], program, priority)
  {
    var s := Choose(slots, input, output, program, priority).value;
    assert SettledAt(slots, s, None);
    SweptTimesUsed(slots[s], gone, Visits(input, output, program, s));
  }

  lemma {:induction false} SweptTimesUsed(h: Header, gone: set<nat>, n: nat)
    ensures var r := SweptTimes(h, gone, true, n);
      r.keyCount == h.keyCount && r.filter == h.filter && r.priority == h.priority
    decreases n
  {
    if n > 0 {
      SweptTimesUsed(Swept(h, gone, true), gone, n - 1);
    }
  }

  lemma {:induction false} SweptTimesSame(h: Header, gone: set<nat>, used: bool, n: nat)
    ensures SameHeader(h, SweptTimes(h, gone, used, n))
    decreases n
  {
    if n > 0 {
      SweptTimesSame(Swept(h, gone, used), gone, used, n - 1);
    }
  }

  lemma OthersSame(slots: seq<Header>, input: seq<nat>, output: seq<nat>, program: seq<Insn>, m: nat, priority: int,
                   gone: set<nat>)
    requires m < |program|
    ensures forall s: nat, t :: 0 <= t < |slots| && t != s ==>
      SameHeader(slots[t], Prepared(slots, input, output, program, m, priority, gone, s)[t])
  {
    var chosen := Choose(slots, input, output, program, priority);
    forall t | 0 <= t < |slots|
      ensures SameHeader(slots[t], Collected(slots, input, output, program, gone, chosen)[t])
    {
      SweptTimesSame(slots[t], gone, chosen == Some(t), Visits(input, output, program, t));
    }
  }

  class Sessions {
    var slots: seq<Header>     // filter_hash_header
    var input: seq<nat>        // the headers on the interface's if_rcv_port_list
    var output: seq<nat>       // and on its if_snd_port_list

    /** Every header is settled, `mine` being about to be used; what is listed is in use. */
    ghost predicate Valid(mine: Option<nat>)
      reads this
    {
      && AllSettled(slots, mine) && (forall s :: 0 <= s < HEADERS ==> |slots[s].table| == HASH_SIZE)
      && (forall s :: s in input ==> InUse(slots, s) && In(slots[s].filter))
      && (forall s :: s in output ==> InUse(slots, s) && Out(slots[s].filter))
      && Distinct(input) && Distinct(output)
    }

    constructor ()
      ensures Valid(None) && input == output == [] && forall s :: 0 <= s < HEADERS ==> slots[s].keyCount == 0
    {
      var free := Header(0, 0, seq(HASH_SIZE, _ => []), [], 0);
      TotalZero(free.table);
      assert AtRest(free);
      slots, input, output := seq(HEADERS, _ => free), [], [];
    }

    /** Taking a header off the interface's lists. */
    method Delist(s: nat, ghost mine: Option<nat>)
      requires Valid(mine) && s < HEADERS
      modifies this`input, this`output
      ensures input == Dropped(old(input), s) && output == Dropped(old(output), s)
      ensures Distinct(input) && Distinct(output)
    {
      DroppedDistinct(input, s);
      DroppedDistinct(output, s);
      if In(slots[s].filter) {
        input := Dropped(input, s);
      } else {
        DroppedNone(input, s);
      }
      if Out(slots[s].filter) {
        output := Dropped(output, s);
      } else {
        DroppedNone(output, s);
      }
    }

    /** A header gets its new state; if that frees it, it goes off the lists. */
    method Settle(s: nat, h: Header, ghost mine: Option<nat>)
      requires Valid(mine) && s < HEADERS && Settled(h, mine == Some(s)) && SameHeader(slots[s], h)
      requires mine == Some(s) ==> h.keyCount == slots[s].keyCount
      modifies this
      ensures Valid(mine) && slots == old(slots)[s := h]
      ensures input == Live(old(input), slots) && output == Live(old(output), slots)
    {
      SettledUpdate(slots, s, h, mine, mine);
      var freed := h.keyCount != slots[s].keyCount;
      if freed {
        Delist(s, mine);
      }
      slots := slots[s := h];
      if freed {
        LiveDropped(old(input), slots, s);
        LiveDropped(old(output), slots, s);
      } else {
        LiveAll(input, slots);
        LiveAll(output, slots);
      }
    }

    /** hash_ent_remove. */
    method Remove(s: nat, i: nat, j: nat, ghost mine: Option<nat>, used: bool) returns (freed: bool)
      requires Valid(mine) && s < HEADERS && i < HASH_SIZE && j < |slots[s].table[i]| && used == (mine == Some(s))
      modifies this
      ensures Valid(mine) && slots == old(slots)[s := Removed(old(slots[s]), i, j, used)]
      ensures input == Live(old(input), slots) && output == Live(old(output), slots)
      ensures freed == Freed(old(slots[s]), i, j, used) == (slots[s].keyCount != old(slots[s]).keyCount)
    {
      var h := slots[s];
      assert SettledAt(slots, s, mine);
      RemovedSettled(h, i, j, used);
      Settle(s, Removed(h, i, j, used), mine);
      freed := Freed(h, i, j, used);
    }

    /** The collection of dead sessions in one header. */
    method Sweep(s: nat, gone: set<nat>, ghost mine: Option<nat>, used: bool)
      requires Valid(mine) && s < HEADERS && used == (mine == Some(s))
      modifies this
      ensures Valid(mine) && slots == old(slots)[s := Swept(old(slots[s]), gone, used)]
      ensures input == Live(old(input), slots) && output == Live(old(output), slots)
    {
      assert SettledAt(slots, s, mine);
      SweptSettled(slots[s], gone, used);
      Settle(s, Swept(slots[s], gone, used), mine);
    }

    /** One turn of the loop of check_filter_list. */
    method CheckHeader(s: nat, program: seq<Insn>, priority: int, gone: set<nat>, before: Option<nat>)
      returns (mine: Option<nat>)
      requires Valid(before) && s < HEADERS
      modifies this
      ensures Valid(mine)
      ensures mine == if before.None? && FitsAt(old(slots), s, program, priority) then Some(s) else before
      ensures slots == old(slots)[s := Swept(old(slots)[s], gone, mine == Some(s))]
      ensures input == Live(old(input), slots) && output == Live(old(output), slots)
    {
      mine := before;
      if before.None? && Fits(slots[s], program, priority) {
        mine := Some(s);
        assert SettledAt(slots, s, before);
        SettledUpdate(slots, s, slots[s], before, mine);
        assert slots == slots[s := slots[s]];
      }
      Sweep(s, gone, mine, mine == Some(s));
    }

    /** What the walk along a list did up to place `n`. */
    ghost predicate Walked(slots0: seq<Header>, input0: seq<nat>, output0: seq<nat>, list: seq<nat>, n: nat,
                           program: seq<Insn>, priority: int, gone: set<nat>, before: Option<nat>, mine: Option<nat>)
      reads this
    {
      && Visited(slots0, slots, list, n, gone, mine)
      && mine == (if before.Some? then before else FirstFit(slots0, list[..n], program, priority))
      && input == Live(input0, slots) && output == Live(output0, slots)
    }

    method CheckTurn(list: seq<nat>, n: nat, program: seq<Insn>, priority: int, gone: set<nat>, now: Option<nat>,
                     ghost before: Option<nat>, ghost slots0: seq<Header>, ghost input0: seq<nat>,
                     ghost output0: seq<nat>)
      returns (mine: Option<nat>)
      requires Valid(now) && Distinct(list) && n < |list| && list[n] < HEADERS
      requires Walked(slots0, input0, output0, list, n, program, priority, gone, before, now)
      modifies this
      ensures Valid(mine) && Walked(slots0, input0, output0, list, n + 1, program, priority, gone, before, mine)
    {
      ghost var was := slots;
      var s := list[n];
      assert s !in list[..n];
      assert was[s] == slots0[s];
      assert SettledAt(was, s, now);
      mine := CheckHeader(s, program, priority, gone, now);
      FirstFitMore(slots0, list, n, program, priority);
      VisitOne(slots0, was, list, n, gone, now, mine);
      SweptSettled(was[s], gone, mine == Some(s));
      assert Fewer(was, slots);
      LiveTwice(input0, was, slots);
      LiveTwice(output0, was, slots);
    }

    /** The loop of check_filter_list over the headers that are on the list at its start. */
    method WalkList(list: seq<nat>, program: seq<Insn>, priority: int, gone: set<nat>, before: Option<nat>)
      returns (mine: Option<nat>)
      requires Valid(before) && Distinct(list) && forall l :: 0 <= l < |list| ==> list[l] < HEADERS
      modifies this
      ensures Valid(mine)
      ensures Walked(old(slots), old(input), old(output), list, |list|, program, priority, gone, before, mine)
    {
      LiveAll(input, slots);
      LiveAll(output, slots);
      mine := before;
      var n := 0;
      while n < |list|
        invariant 0 <= n <= |list| && Valid(mine)
        invariant Walked(old(slots), old(input), old(output), list, n, program, priority, gone, before, mine)
      {
        mine := CheckTurn(list, n, program, priority, gone, mine, before, old(slots), old(input), old(output));
        n := n + 1;
      }
    }

    /** check_filter_list: it looks for a header to share and collects dead sessions on the way. */
    method CheckList(incoming: bool, program: seq<Insn>, priority: int, gone: set<nat>, before: Option<nat>)
      returns (mine: Option<nat>)
      requires Valid(before)
      modifies this
      ensures Valid(mine)
      ensures incoming ==>
        Walked(old(slots), old(input), old(output), old(input), |old(input)|, program, priority, gone, before, mine)
      ensures !incoming ==>
        Walked(old(slots), old(input), old(output), old(output), |old(output)|, program, priority, gone, before, mine)
    {
      var list := if incoming then input else output;
      assert forall l :: 0 <= l < |list| ==> list[l] in list;
      mine := WalkList(list, program, priority, gone, before);
    }

    /** The walks along the lists that the program is for. */
    method WalkLists(program: seq<Insn>, priority: int, gone: set<nat>, before: Option<nat>)
      returns (mine: Option<nat>, ghost slots1: seq<Header>, ghost m1: Option<nat>)
      requires Valid(before)
      modifies this
      ensures Valid(mine) && input == Live(old(input), slots) && output == Live(old(output), slots)
      ensures Pass(old(slots), slots1, old(input), In(program), program, priority, gone, before, m1)
      ensures Pass(slots1, slots, Live(old(output), slots1), Out(program), program, priority, gone, m1, mine)
    {
      mine := before;
      LiveAll(input, slots);
      LiveAll(output, slots);
      if In(program) {
        mine := CheckList(true, program, priority, gone, mine);
        assert old(input)[..|old(input)|] == old(input);
      }
      slots1, m1 := slots, mine;
      ghost var output1 := output;
      if Out(program) {
        mine := CheckList(false, program, priority, gone, mine);
        assert output1[..|output1|] == output1;
        assert Fewer(slots1, slots);
        LiveTwice(old(input), slots1, slots);
        LiveTwice(old(output), slots1, slots);
      }
    }

    /** A listed header to share; dead sessions are collected on the lists the program is for. */
    method Share(program: seq<Insn>, priority: int, gone: set<nat>) returns (mine: Option<nat>)
      requires Valid(None)
      modifies this
      ensures Valid(mine) && mine == Choose(old(slots), old(input), old(output), program, priority)
      ensures slots == Collected(old(slots), old(input), old(output), program, gone, mine)
      ensures input == Live(old(input), slots) && output == Live(old(output), slots)
    {
      ghost var slots1, m1;
      mine, slots1, m1 := WalkLists(program, priority, gone, None);
      PassAll(old(slots), slots1, slots, old(input), old(output), program, priority, gone, m1, mine);
    }

    /** The walks for a plain filter, which takes the place of a header to share. */
    method Collect(program: seq<Insn>, priority: int, gone: set<nat>)
      requires Valid(None)
      modifies this
      ensures Valid(None) && slots == Collected(old(slots), old(input), old(output), program, gone, None)
      ensures input == Live(old(input), slots) && output == Live(old(output), slots)
    {
      SettledSame(slots, None, Some(HEADERS));
      var mine;
      ghost var slots1, m1;
      mine, slots1, m1 := WalkLists(program, priority, gone, Some(HEADERS));
      PassPlain(old(slots), slots1, slots, old(input), old(output), program, priority, gone, m1, mine);
      SettledSame(slots, Some(HEADERS), None);
    }

    /** The first free header, if there is one. */
    method FindFree() returns (s: nat)
      requires |slots| == HEADERS
      ensures FirstFree(slots, s)
    {
      s := 0;
      while s < HEADERS && slots[s].keyCount != 0
        invariant 0 <= s <= HEADERS && forall t :: 0 <= t < s ==> slots[t].keyCount > 0
      {
        s := s + 1;
      }
    }

    /** A free header is set up for a program, and listed. */
    method Allocate(s: nat, program: seq<Insn>, m: nat, priority: int)
      requires Valid(None) && s < HEADERS && slots[s].keyCount == 0 && IsMatch(program, m)
      modifies this
      ensures Valid(Some(s)) && slots == old(slots)[s := Empty(program, m, priority)]
      ensures input == old(input) + (if In(program) then [s] else [])
      ensures output == old(output) + (if Out(program) then [s] else [])
    {
      EmptyOk(program, m, priority);
      SettledUpdate(slots, s, Empty(program, m, priority), None, Some(s));
      slots := slots[s := Empty(program, m, priority)];
      if In(program) {
        input := input + [s];
      }
      if Out(program) {
        output := output + [s];
      }
    }

    /** The new session goes to the end of its bucket. */
    method Insert(s: nat, e: Entry)
      requires Valid(Some(s)) && s < HEADERS && slots[s].keyCount > 0 && SessionOk(e)
        && Equal(slots[s].filter, e.program)
      modifies this`slots
      ensures Valid(None) && slots == old(slots)[s := Inserted(old(slots[s]), e)]
      ensures Ends(slots[s].table[Hash(e.keys)], e)
      ensures forall p, n :: Fits(old(slots[s]), p, n) ==> Fits(slots[s], p, n)
    {
      assert SettledAt(slots, s, Some(s));
      InsertedAtRest(slots[s], e);
      InsertedFits(slots[s], e);
      SettledUpdate(slots, s, Inserted(slots[s], e), Some(s), None);
      slots := slots[s := Inserted(slots[s], e)];
    }

    /** A header to share, or else the first free one; HEADERS if there is neither. */
    method Reserve(program: seq<Insn>, m: nat, priority: int, gone: set<nat>) returns (s: nat)
      requires Valid(None) && IsMatch(program, m)
      modifies this
      ensures s <= HEADERS && Valid(if s < HEADERS then Some(s) else None)
      ensures s < HEADERS ==> Fits(slots[s], program, priority)
      ensures Placed(old(slots), old(input), old(output), input, output, program, priority, gone, s)
      ensures slots == Prepared(old(slots), old(input), old(output), program, m, priority, gone, s)
    {
      var mine := Share(program, priority, gone);
      if mine.Some? {
        s := mine.value;
        assert SettledAt(slots, s, mine);
        ChosenFits(old(slots), old(input), old(output), program, priority, gone);
        return;
      }
      s := FindFree();
      if s < HEADERS {
        Allocate(s, program, m, priority);
      }
    }

    /**
      * The table part of net_set_filter, for a program with a match instruction.  The session joins a
      * listed header that has its program, or gets a free one; `s` is HEADERS if there is neither.
      */
    method Install(program: seq<Insn>, m: nat, priority: int, port: nat, gone: set<nat>) returns (s: nat)
      requires Valid(None) && IsMatch(program, m)
      modifies this
      ensures Valid(None) && s <= HEADERS
      ensures s < HEADERS ==> Fits(slots[s], program, priority) && slots[s].priority == priority
      ensures s < HEADERS ==> Ends(slots[s].table[Hash(KeysOf(program, m))], Entry(port, KeysOf(program, m), program))
      ensures Placed(old(slots), old(input), old(output), input, output, program, priority, gone + {port}, s)
      ensures var prepared := Prepared(old(slots), old(input), old(output), program, m, priority, gone + {port}, s);
        if s == HEADERS then slots == prepared
        else
          && |prepared[s].table| == HASH_SIZE
          && slots == prepared[s := Inserted(prepared[s], Entry(port, KeysOf(program, m), program))]
      ensures forall t :: 0 <= t < HEADERS && t != s ==> SameHeader(old(slots)[t], slots[t])
    {
      OthersSame(slots, input, output, program, m, priority, gone + {port});
      s := Reserve(program, m, priority, gone + {port});
      if s < HEADERS {
        Insert(s, Entry(port, KeysOf(program, m), program));
      }
    }

    /**
      * net_set_filter with a program of this kind.  It is refused exactly if it is for no list or bpf_validate
      * does not accept it, and then nothing happens.  A session is made if it has a match instruction; for a
      * plain filter dead sessions are collected, and no more is done to the table.
      */
    method SetSession(program: seq<Insn>, priority: int, port: nat, gone: set<nat>) returns (ok: bool, r: Option<nat>)
      requires Valid(None)
      modifies this
      ensures Valid(None) && (ok <==> (In(program) || Out(program)) && Accepted(program))
      ensures r.Some? <==> ok && HasMatch(program)
      ensures !ok ==> slots == old(slots) && input == old(input) && output == old(output)
      ensures ok && r.None? ==>
        && slots == Collected(old(slots), old(input), old(output), program, gone + {port}, None)
        && input == Live(old(input), slots) && output == Live(old(output), slots)
      ensures r.Some? ==> r.value <= HEADERS && (r.value == HEADERS ==> FirstFree(slots, HEADERS))
      ensures r.Some? && r.value < HEADERS ==>
        Fits(slots[r.value], program, priority) && slots[r.value].priority == priority
      ensures r.Some? && r.value < HEADERS ==> exists m: nat, e ::
          && IsMatch(program, m) && e == Entry(port, KeysOf(program, m), program)
          && Ends(slots[r.value].table[Hash(e.keys)], e)
    {
      if !In(program) && !Out(program) {
        return false, None;
      }
      var kind, m := Validate(program);
      if kind == 0 {
        return false, None;
      }
      if kind == 1 {
        Collect(program, priority, gone + {port});
        return true, None;
      }
      AcceptedMatch(program, m);
      var s := Install(program, m, priority, port, gone);
      return true, Some(s);
    }
  }

  predicate HasMatch(f: seq<Insn>) { exists i :: 1 <= i < |f| && f[i].code == RET_MATCH }

  predicate Ends(b: seq<Entry>, e: Entry) { |b| > 0 && b[|b| - 1] == e }

  function Empty(program: seq<Insn>, m: nat, priority: int): Header
    requires m < |program|
  {
    Header(program[m].jt, 0, seq(HASH_SIZE, _ => []), program, priority)
  }

  lemma EmptyOk(program: seq<Insn>, m: nat, priority: int)
    requires IsMatch(program, m)
    ensures HeaderOk(Empty(program, m, priority)) && program[m].jt > 0
  {
    TotalZero(Empty(program, m, priority).table);
  }

  function Inserted(h: Header, e: Entry): Header
    requires |h.table| == HASH_SIZE
  {
    h.(refCount := h.refCount + 1, table := h.table[Hash(e.keys) := h.table[Hash(e.keys)] + [e]])
  }

  lemma InsertedFits(h: Header, e: Entry)
    requires |h.table| == HASH_SIZE
    ensures Ends(Inserted(h, e).table[Hash(e.keys)], e)
    ensures forall p, n :: Fits(h, p, n) ==> Fits(Inserted(h, e), p, n)
  {}

  /** Programs that are equal up to keys have their match instruction at the same place. */
  lemma SameMatch(f: seq<Insn>, g: seq<Insn>, m: nat, n: nat)
    requires Equal(f, g) && IsMatch(f, m) && IsMatch(g, n)
    ensures m == n && f[m] == g[m]
  {
    assert f[m].code == RET_MATCH;
    assert g[m] == f[m];
  }

  lemma InsertedAtRest(h: Header, e: Entry)
    requires HeaderOk(h) && h.keyCount > 0 && SessionOk(e) && Equal(h.filter, e.program)
    ensures AtRest(Inserted(h, e))
  {
    var r, i := Inserted(h, e), Hash(e.keys);
    TotalUpdate(h.table, i, h.table[i] + [e]);
    var m: nat :| IsMatch(h.filter, m) && h.filter[m].jt == h.keyCount;
    var n: nat :| IsMatch(e.program, n) && e.keys == KeysOf(e.program, n);
    SameMatch(h.filter, e.program, m, n);
    forall l, x | 0 <= l < HASH_SIZE && x in r.table[l] ensures EntryOk(r, l, x) {
      if x != e {
        assert x in h.table[l];
        assert EntryOk(h, l, x);
      } else if l != i {
        assert EntryOk(h, l, x);
      }
    }
  }

  // ---------------------------------------------------------------- a dead session that stays

  /** A program for incoming packets, with one key. */
  const SESSION: seq<Insn> := [Insn(1, 0, 0, 0), Insn(RET_MATCH, 1, 0, 0), Insn(KEY, 0, 0, 0), Insn(RET_K, 0, 0, 0)]

  function SessionOf(port: nat): Entry { Entry(port, KeysOf(SESSION, 1), SESSION) }

  function Place(): nat { Hash(KeysOf(SESSION, 1)) }

  /** The first header has that program and is the only one listed; these are its sessions. */
  ghost predicate OneHeader(t: Sessions, b: seq<Entry>)
    reads t
  {
    && t.Valid(None) && t.input == [0] && t.output == []
    && t.slots[0].filter == SESSION && t.slots[0].priority == 0
    && t.slots[0].table[Place()] == b
  }

  lemma SessionIsMatch()
    ensures IsMatch(SESSION, 1) && In(SESSION) && !Out(SESSION) && Accepted(SESSION)
  {
    assert OnlyMatch(SESSION, |SESSION|, 1);
    assert InsnOk(SESSION, 1) && InsnOk(SESSION, 2) && InsnOk(SESSION, 3);
  }

  method FirstSession(port: nat) returns (t: Sessions)
    ensures fresh(t) && OneHeader(t, [SessionOf(port)])
  {
    SessionIsMatch();
    t := new Sessions();
    ghost var before := t.slots;
    var s := t.Install(SESSION, 1, 0, port, {});
    ghost var swept := Collected(before, [], [], SESSION, {port}, None);
    assert swept[0] == before[0];
    assert s == 0;
  }

  method NextSession(t: Sessions, ghost b: seq<Entry>, port: nat, gone: set<nat>)
    requires OneHeader(t, b)
    modifies t
    ensures OneHeader(t, Scanned(b, gone + {port}) + [SessionOf(port)])
  {
    SessionIsMatch();
    ghost var before, g := t.slots, gone + {port};
    assert SettledAt(before, 0, None);
    assert Equal(SESSION, SESSION);
    assert FitsAt(before, 0, SESSION, 0);
    assert Choose(before, [0], [], SESSION, 0) == Some(0);
    ghost var swept := Collected(before, [0], [], SESSION, g, Some(0));
    TwoSweeps(before[0], g, true);
    assert Visits([0], [], SESSION, 0) == 1;
    assert swept[0] == Swept(before[0], g, true);
    var s := t.Install(SESSION, 1, 0, port, gone);
    assert Live([0], swept) == [0];
  }

  /**
    * An installation that leaves a dead session: of two sessions in one bucket whose ports are both gone,
    * the second is still there when a third has been installed.
    */
  method DeadSessionStays() returns (t: Sessions, ghost gone: set<nat>)
    ensures fresh(t) && t.Valid(None) && t.slots[0].table[Place()] == [SessionOf(2), SessionOf(3)]
    ensures SessionOf(2).port in gone && SessionOf(3).port !in gone
  {
    t := FirstSession(1);
    NextSession(t, [SessionOf(1)], 2, {});
    ScanTwo();
    gone := {1, 2};
    NextSession(t, [SessionOf(1), SessionOf(2)], 3, {1, 2});
  }

  lemma ScanTwo()
    ensures Scanned([SessionOf(1)], {} + {2}) + [SessionOf(2)] == [SessionOf(1), SessionOf(2)]
    ensures Scanned([SessionOf(1), SessionOf(2)], {1, 2} + {3}) + [SessionOf(3)] == [SessionOf(2), SessionOf(3)]
  {
    KeptAlive([SessionOf(1)], {} + {2});
  }
}
