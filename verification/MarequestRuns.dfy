/**
  * Every run of requests, cancellations, renamings and destructions keeps table, entries and notifications in
  * agreement.
  */
module MarequestRuns {
  import opened Options
  import opened Marequest

  // ---------------------------------------------------------------- lists

  /** On a list where only `id` matches, `id` is found, and exactly it is taken out. */
  lemma {:induction false} UnlinkedMembers(b: seq<nat>, requests: map<nat, Request>, space: nat, name: nat, id: nat)
    requires Distinct(b) && id in b && Matches(requests, id, space, name)
    requires forall x :: x in b && Matches(requests, x, space, name) ==> x == id
    ensures Found(b, requests, space, name) == Some(id) && Distinct(Unlinked(b, requests, space, name))
    ensures forall x :: x in Unlinked(b, requests, space, name) <==> x in b && x != id
  {
    if b[0] != id {
      assert id in b[1..];
      UnlinkedMembers(b[1..], requests, space, name, id);
      assert forall x :: x in b <==> x == b[0] || x in b[1..];
      assert b[0] !in b[1..];
    } else {
      assert forall x :: x in b <==> x == b[0] || x in b[1..];
    }
  }

  /** The list of a request with a name holds it, and only it matches there. */
  lemma Located(s: State, id: nat)
    requires Inv(s) && id in s.requests && s.requests[id].name != NULL
    ensures var q := s.requests[id]; var b := s.table[Bucket(s, q.space, q.name)];
      && Found(b, s.requests, q.space, q.name) == Some(id) && Distinct(Unlinked(b, s.requests, q.space, q.name))
      && forall x :: x in Unlinked(b, s.requests, q.space, q.name) <==> x in b && x != id
  {
    var q := s.requests[id];
    var h := Bucket(s, q.space, q.name);
    assert LinkedOk(s, h, id) && At(s.table, h, id);
    assert Matches(s.requests, id, q.space, q.name);
    UnlinkedMembers(s.table[h], s.requests, q.space, q.name, id);
  }

  /** Who is where in the table once a request is cut out of it. */
  lemma CutAt(s: State, id: nat)
    requires Inv(s) && id in s.requests && s.requests[id].name != NULL
    ensures var r := Cut(s, s.requests[id].space, s.requests[id].name);
      && |r.table| == |s.table| && (forall i :: 0 <= i < |r.table| ==> Distinct(r.table[i]))
      && forall i, x {:trigger At(r.table, i, x)} :: At(r.table, i, x) <==> At(s.table, i, x) && x != id
  {
    var q := s.requests[id];
    var r, h := Cut(s, q.space, q.name), Bucket(s, q.space, q.name);
    Located(s, id);
    forall i, x ensures At(r.table, i, x) <==> At(s.table, i, x) && x != id {
      assert LinkedOk(s, i, x);
    }
  }

  lemma MarkedRequest(s: State, space: nat, name: nat) returns (id: nat)
    requires Inv(s) && space in s.spaces && s.spaces[space].active && name in s.spaces[space].marked
    ensures Matches(s.requests, id, space, name) && name != NULL
    ensures Found(s.table[Bucket(s, space, name)], s.requests, space, name) == Some(id)
  {
    assert MarkOk(s, space, name);
    id :| Matches(s.requests, id, space, name);
    Located(s, id);
  }

  // ---------------------------------------------------------------- the steps

  ghost predicate Linked(s: State)
    requires |s.table| > 0
  {
    && (forall i, id {:trigger LinkedOk(s, i, id)} :: LinkedOk(s, i, id))
    && (forall i {:trigger s.table[i]} :: 0 <= i < |s.table| ==> Distinct(s.table[i]))
  }

  ghost predicate MarksOk(s: State) { forall space, name {:trigger MarkOk(s, space, name)} :: MarkOk(s, space, name) }

  lemma CancelLinked(s: State, space: nat, name: nat, id: nat)
    requires Inv(s) && space in s.spaces && Matches(s.requests, id, space, name) && name != NULL
    requires Found(s.table[Bucket(s, space, name)], s.requests, space, name) == Some(id)
    ensures var r := Canceling(s, space, name); Shape(r) && Linked(r) && Unique(r)
  {
    var r := Canceling(s, space, name);
    CutAt(s, id);
    forall x ensures Spaced(r, x) {
      assert Spaced(s, x);
    }
    forall i, x ensures LinkedOk(r, i, x) {
      assert LinkedOk(s, i, x);
      assert At(r.table, i, x) <==> At(Cut(s, space, name).table, i, x);
    }
    forall x, y, sp, n | Matches(r.requests, x, sp, n) && Matches(r.requests, y, sp, n) && n != NULL ensures x == y {
      assert Matches(s.requests, x, sp, n) && Matches(s.requests, y, sp, n);
    }
  }

  lemma CancelMarks(s: State, space: nat, name: nat, id: nat)
    requires Inv(s) && space in s.spaces && Matches(s.requests, id, space, name) && name != NULL
    requires Found(s.table[Bucket(s, space, name)], s.requests, space, name) == Some(id)
    ensures MarksOk(Canceling(s, space, name))
  {
    var r := Canceling(s, space, name);
    forall sp, n ensures MarkOk(r, sp, n) {
      assert MarkOk(s, sp, n);
      forall x | x != id ensures Matches(r.requests, x, sp, n) <==> Matches(s.requests, x, sp, n) {}
      assert n != NULL ==> !Matches(r.requests, id, sp, n);
      assert Matches(s.requests, id, sp, n) <==> sp == space && n == name;
    }
  }

  lemma CancelKeeps(s: State, space: nat, name: nat)
    requires Inv(s) && Enabled(s, Cancel(space, name))
    ensures Inv(Canceling(s, space, name))
  {
    var id := MarkedRequest(s, space, name);
    CancelLinked(s, space, name, id);
    CancelMarks(s, space, name, id);
  }

  lemma RenameLinked(s: State, space: nat, name: nat, target: nat, id: nat)
    requires Inv(s) && Enabled(s, Rename(space, name, target)) && Matches(s.requests, id, space, name) && name != NULL
    requires Found(s.table[Bucket(s, space, name)], s.requests, space, name) == Some(id)
    ensures var r := Renaming(s, space, name, target); Shape(r) && Linked(r)
  {
    var r, c := Renaming(s, space, name, target), Cut(s, space, name);
    CutAt(s, id);
    forall x ensures Spaced(r, x) {
      assert Spaced(s, x);
    }
    forall i, x ensures LinkedOk(r, i, x) {
      assert LinkedOk(s, i, x);
      assert At(r.table, i, x) <==> At(c.table, i, x) || (i == Bucket(s, space, target) && x == id);
    }
    forall i | 0 <= i < |r.table| ensures Distinct(r.table[i]) {
      assert At(c.table, i, id) <==> id in c.table[i];
    }
  }

  lemma RenameMarks(s: State, space: nat, name: nat, target: nat, id: nat)
    requires Inv(s) && Enabled(s, Rename(space, name, target)) && Matches(s.requests, id, space, name) && name != NULL
    requires Found(s.table[Bucket(s, space, name)], s.requests, space, name) == Some(id)
    ensures var r := Renaming(s, space, name, target); MarksOk(r) && Unique(r)
  {
    var r := Renaming(s, space, name, target);
    assert MarkOk(s, space, target);
    forall x, sp, n | x != id ensures Matches(r.requests, x, sp, n) <==> Matches(s.requests, x, sp, n) {}
    assert Matches(r.requests, id, space, target);
    forall sp, n ensures MarkOk(r, sp, n) {
      assert MarkOk(s, sp, n);
      assert Matches(s.requests, id, sp, n) <==> sp == space && n == name;
      assert Matches(r.requests, id, sp, n) <==> sp == space && n == target;
    }
  }

  lemma RenameKeeps(s: State, space: nat, name: nat, target: nat)
    requires Inv(s) && Enabled(s, Rename(space, name, target))
    ensures Inv(Renaming(s, space, name, target))
  {
    var id := MarkedRequest(s, space, name);
    RenameLinked(s, space, name, target, id);
    RenameMarks(s, space, name, target, id);
  }

  lemma DestroyLinked(s: State, id: nat)
    requires Inv(s) && id in s.requests && s.requests[id].space in s.spaces
    ensures var r := Destroying(s, id); Shape(r) && Linked(r) && Unique(r)
  {
    var r, q := Destroying(s, id), s.requests[id];
    if q.name != NULL {
      CutAt(s, id);
    }
    forall x ensures Spaced(r, x) {
      assert Spaced(s, x);
    }
    forall i, x ensures LinkedOk(r, i, x) {
      assert LinkedOk(s, i, x);
      assert q.name != NULL ==> (At(r.table, i, x) <==> At(Cut(s, q.space, q.name).table, i, x));
    }
    forall x, y, sp, n | Matches(r.requests, x, sp, n) && Matches(r.requests, y, sp, n) && n != NULL ensures x == y {
      assert Matches(s.requests, x, sp, n) && Matches(s.requests, y, sp, n);
    }
  }

  lemma DestroyMarks(s: State, id: nat)
    requires Inv(s) && id in s.requests && s.requests[id].space in s.spaces
    ensures MarksOk(Destroying(s, id))
  {
    var r, q := Destroying(s, id), s.requests[id];
    forall x, sp, n ensures Matches(r.requests, x, sp, n) <==> Matches(s.requests, x, sp, n) && x != id {}
    forall sp, n ensures MarkOk(r, sp, n) {
      assert MarkOk(s, sp, n);
      assert Matches(s.requests, id, sp, n) <==> sp == q.space && n == q.name;
    }
  }

  lemma DestroyNotices(s: State, id: nat)
    requires Inv(s) && id in s.requests && s.requests[id].space in s.spaces
    ensures NoticesOk(Destroying(s, id))
  {
    var r, n := Destroying(s, id), |s.notices|;
    assert Spaced(s, id);
    forall x: nat ensures Noticed(r.notices, x) <==> Noticed(s.notices, x) || x == id {
      assert r.notices[n].id == id;
      if Noticed(s.notices, x) {
        var i :| 0 <= i < n && s.notices[i].id == x;
        assert r.notices[i].id == x;
      }
    }
    forall i | 0 <= i < n ensures r.notices[i].id != id {
      assert Noticed(s.notices, s.notices[i].id);
    }
  }

  lemma DestroyKeeps(s: State, id: nat)
    requires Inv(s) && id in s.requests
    ensures s.requests[id].space in s.spaces && Inv(Destroying(s, id))
  {
    assert Spaced(s, id);
    DestroyLinked(s, id);
    DestroyMarks(s, id);
    DestroyNotices(s, id);
  }

  lemma CreateLinked(s: State, space: nat, entry: Option<nat>, right: Option<nat>, memory: bool)
    requires Inv(s) && Enabled(s, Create(space, entry, right, memory))
    requires CreateReturn(s, space, entry, right, memory).Created?
    ensures var r := Creating(s, space, entry, right, memory); Shape(r) && Linked(r)
  {
    var r, id := Creating(s, space, entry, right, memory), s.next;
    assert Spaced(s, id);
    forall x ensures Spaced(r, x) {
      assert Spaced(s, x);
    }
    forall i, x ensures LinkedOk(r, i, x) {
      assert LinkedOk(s, i, x);
      assert At(r.table, i, x) <==> At(s.table, i, x) || (entry.Some? && i == Bucket(s, space, entry.value) && x == id);
    }
    forall i | 0 <= i < |r.table| ensures Distinct(r.table[i]) {
      assert LinkedOk(s, i, id) && !At(s.table, i, id);
    }
  }

  lemma CreateMarks(s: State, space: nat, entry: Option<nat>, right: Option<nat>, memory: bool)
    requires Inv(s) && Enabled(s, Create(space, entry, right, memory))
    requires CreateReturn(s, space, entry, right, memory).Created?
    ensures var r := Creating(s, space, entry, right, memory); MarksOk(r) && Unique(r)
  {
    var r, id := Creating(s, space, entry, right, memory), s.next;
    assert Spaced(s, id);
    forall x, sp, n | x != id ensures Matches(r.requests, x, sp, n) <==> Matches(s.requests, x, sp, n) {}
    var name := if entry.Some? then entry.value else NULL;
    assert Matches(r.requests, id, space, name);
    assert MarkOk(s, space, name);
    forall sp, n ensures MarkOk(r, sp, n) {
      assert MarkOk(s, sp, n);
      assert !Matches(s.requests, id, sp, n);
      assert Matches(r.requests, id, sp, n) <==> sp == space && n == name;
    }
  }

  lemma CreateKeeps(s: State, space: nat, entry: Option<nat>, right: Option<nat>, memory: bool)
    requires Inv(s) && Enabled(s, Create(space, entry, right, memory))
    ensures Inv(Creating(s, space, entry, right, memory))
  {
    if CreateReturn(s, space, entry, right, memory).Created? {
      CreateLinked(s, space, entry, right, memory);
      CreateMarks(s, space, entry, right, memory);
      var r := Creating(s, space, entry, right, memory);
      assert Spaced(s, s.next);
      assert r.requests.Keys == s.requests.Keys + {s.next};
    }
  }

  lemma DieKeeps(s: State, space: nat)
    requires Inv(s) && space in s.spaces
    ensures Inv(Apply(s, Die(space)))
  {
    var r := Apply(s, Die(space));
    forall x ensures Spaced(r, x) {
      assert Spaced(s, x);
    }
    forall i, x ensures LinkedOk(r, i, x) {
      assert LinkedOk(s, i, x);
    }
    forall sp, n ensures MarkOk(r, sp, n) {
      assert MarkOk(s, sp, n);
    }
  }

  lemma ApplyKeeps(s: State, e: Event)
    requires Inv(s) && Enabled(s, e)
    ensures Inv(Apply(s, e))
  {
    match e
    case Create(space, entry, right, memory) => CreateKeeps(s, space, entry, right, memory);
    case Cancel(space, name) => CancelKeeps(s, space, name);
    case Rename(space, name, target) => RenameKeeps(s, space, name, target);
    case Destroy(id) => DestroyKeeps(s, id);
    case Die(space) => DieKeeps(s, space);
  }

  // ---------------------------------------------------------------- runs

  /** An empty table of any size, and any spaces, all alive. */
  function Start(size: nat, spaces: set<nat>): State {
    State(seq(size, _ => []), map[], map x | x in spaces :: Space(true, {}), [], 0)
  }

  /** An event that the callers exclude cannot happen. */
  ghost function Step(s: State, e: Event): State {
    if Shape(s) && Enabled(s, e) then Apply(s, e) else s
  }

  ghost function Run(s: State, es: seq<Event>): State
    decreases |es|
  {
    if es == [] then s else Run(Step(s, es[0]), es[1..])
  }

  lemma {:induction false} RunKeeps(s: State, es: seq<Event>)
    requires Inv(s)
    ensures Inv(Run(s, es))
    decreases |es|
  {
    if es != [] {
      if Enabled(s, es[0]) {
        ApplyKeeps(s, es[0]);
      }
      RunKeeps(Step(s, es[0]), es[1..]);
    }
  }

  lemma RunInv(size: nat, spaces: set<nat>, es: seq<Event>)
    requires size > 0
    ensures Inv(Run(Start(size, spaces), es))
  {
    var s := Start(size, spaces);
    forall i, id ensures LinkedOk(s, i, id) {}
    forall id: nat ensures !Noticed(s.notices, id) {}
    RunKeeps(s, es);
  }

  /**
    * In every state of every run an entry of an active space is marked exactly when there is a request for
    * it on the list of its hash value, and then there is one only.
    */
  lemma MarksAgree(size: nat, spaces: set<nat>, es: seq<Event>, space: nat, name: nat)
    requires size > 0
    requires var s := Run(Start(size, spaces), es); |s.table| > 0 && space in s.spaces && s.spaces[space].active
    ensures var s := Run(Start(size, spaces), es);
      && (name in s.spaces[space].marked <==>
            && name != NULL
            && exists id :: Matches(s.requests, id, space, name) && At(s.table, Bucket(s, space, name), id))
      && (forall id, id' ::
            name != NULL && Matches(s.requests, id, space, name) && Matches(s.requests, id', space, name) ==> id == id')
  {
    RunInv(size, spaces, es);
    var s := Run(Start(size, spaces), es);
    assert MarkOk(s, space, name);
    forall id | Matches(s.requests, id, space, name) && name != NULL ensures At(s.table, Bucket(s, space, name), id) {
      assert LinkedOk(s, Bucket(s, space, name), id);
    }
  }

  /** In every state of every run a request is on a list exactly when it has a name. */
  lemma LinkedIffNamed(size: nat, spaces: set<nat>, es: seq<Event>, id: nat)
    requires size > 0 && id in Run(Start(size, spaces), es).requests
    ensures var s := Run(Start(size, spaces), es);
      (exists i :: At(s.table, i, id)) <==> s.requests[id].name != NULL
  {
    RunInv(size, spaces, es);
    var s := Run(Start(size, spaces), es);
    var h := Bucket(s, s.requests[id].space, s.requests[id].name);
    assert LinkedOk(s, h, id);
    if s.requests[id].name != NULL {
      assert At(s.table, h, id);
    } else {
      forall i: nat ensures !At(s.table, i, id) {
        assert LinkedOk(s, i, id);
      }
    }
  }

  /** A request for the name waits in the space. */
  ghost predicate Asked(s: State, space: nat, name: nat) {
    exists id :: id in s.requests && s.requests[id].space == space && s.requests[id].name == name
  }

  /** What ipc_marequest_create answers, by the space and the requests that wait. */
  ghost predicate CreateLaw(s: State, r: Return, space: nat, entry: Option<nat>, right: Option<nat>, memory: bool)
    requires space in s.spaces
  {
    var asked := entry.Some? && Asked(s, space, entry.value);
    if !memory then r == NoNotify
    else if !s.spaces[space].active then r == InvalidNotify
    else if asked then r == InProgress
    else if right.None? then r == InvalidNotify
    else r == Created(s.next) && s.next !in s.requests
  }

  /** A new request waits under its name, or under none; the others, and what was told, are as before. */
  ghost predicate AddsOne(s: State, r: State, id: nat, q: Request) {
    r.requests == s.requests[id := q] && r.notices == s.notices && r.next == s.next + 1
  }

  /**
    * In every state of every run: a request is made exactly if there is memory, the space is alive, no request for
    * the entry waits and the notify port is good; it is refused as in progress exactly if one waits.
    */
  lemma CreateDecides(size: nat, spaces: set<nat>, es: seq<Event>, space: nat, entry: Option<nat>, right: Option<nat>,
                      memory: bool)
    requires size > 0 && Enabled(Run(Start(size, spaces), es), Create(space, entry, right, memory))
    ensures var s := Run(Start(size, spaces), es);
      var r, t := CreateReturn(s, space, entry, right, memory), Step(s, Create(space, entry, right, memory));
      && CreateLaw(s, r, space, entry, right, memory)
      && if r.Created? then AddsOne(s, t, s.next, Request(space, if entry.Some? then entry.value else 0, right.value))
         else t == s
  {
    RunInv(size, spaces, es);
    var s := Run(Start(size, spaces), es);
    if entry.Some? {
      assert MarkOk(s, space, entry.value);
      AskedMatches(s, space, entry.value);
    }
    assert Spaced(s, s.next);
  }

  lemma AskedMatches(s: State, space: nat, name: nat)
    ensures Asked(s, space, name) <==> exists id :: Matches(s.requests, id, space, name)
  {
    forall id ensures Matches(s.requests, id, space, name) <==>
      id in s.requests && s.requests[id].space == space && s.requests[id].name == name {}
  }

  // ---------------------------------------------------------------- what becomes of a request

  /** The events of a run that could happen, and so took effect. */
  ghost function Effective(s: State, es: seq<Event>): seq<Event>
    decreases |es|
  {
    if es == [] then []
    else (if Shape(s) && Enabled(s, es[0]) then [es[0]] else []) + Effective(Step(s, es[0]), es[1..])
  }

  /** What one event makes of a name in a space: renaming moves it and cancelling takes it away. */
  function Renamed(space: nat, name: nat, e: Event): nat {
    match e
    case Cancel(sp, n) => if sp == space && n == name then NULL else name
    case Rename(sp, n, target) => if sp == space && n == name && name != NULL then target else name
    case _ => name
  }

  function NameAfter(space: nat, name: nat, es: seq<Event>): nat
    decreases |es|
  {
    if es == [] then name else NameAfter(space, Renamed(space, name, es[0]), es[1..])
  }

  /** The events before the first that is `e`. */
  function Until(es: seq<Event>, e: Event): seq<Event>
    requires e in es
  {
    if es[0] == e then [] else [es[0]] + Until(es[1..], e)
  }

  /** The name to notify with, when `es` happened to a request and then it was destroyed. */
  function NameTold(q: Request, alive: bool, es: seq<Event>): nat {
    if alive && Die(q.space) !in es then NameAfter(q.space, q.name, es) else NULL
  }

  ghost predicate Told(s: State, n: Notice) { n.id !in s.requests && n in s.notices }

  /** What became of a request after some events: it waits with its name of now, or there was a notification. */
  ghost predicate Followed(s: State, id: nat, q: Request, alive: bool, es: seq<Event>) {
    if Destroy(id) !in es then
      && Matches(s.requests, id, q.space, NameAfter(q.space, q.name, es))
      && s.requests[id].right == q.right
    else Told(s, Notice(id, q.right, NameTold(q, alive, Until(es, Destroy(id)))))
  }

  lemma ApplyCounts(s: State, e: Event)
    requires Inv(s) && Enabled(s, e)
    ensures Apply(s, e).next >= s.next
  {}

  lemma ApplyTold(s: State, e: Event, n: Notice)
    requires Inv(s) && Enabled(s, e) && n.id < s.next && Told(s, n)
    ensures Told(Apply(s, e), n)
  {
    var r := Apply(s, e);
    var i :| 0 <= i < |s.notices| && s.notices[i] == n;
    assert i < |r.notices| && r.notices[i] == n;
  }

  lemma {:induction false} RunTold(s: State, es: seq<Event>, n: Notice)
    requires Inv(s) && n.id < s.next && Told(s, n)
    ensures Told(Run(s, es), n)
    decreases |es|
  {
    if es != [] {
      if Enabled(s, es[0]) {
        ApplyKeeps(s, es[0]);
        ApplyTold(s, es[0], n);
        ApplyCounts(s, es[0]);
      }
      RunTold(Step(s, es[0]), es[1..], n);
    }
  }

  /** One event other than its destruction does to a request what it does to its name. */
  lemma ApplyFollows(s: State, e: Event, id: nat)
    requires Inv(s) && Enabled(s, e) && id in s.requests && e != Destroy(id)
    ensures var q := s.requests[id]; var r := Apply(s, e);
      id in r.requests && r.requests[id] == q.(name := Renamed(q.space, q.name, e))
  {
    var q := s.requests[id];
    assert Spaced(s, id);
    assert MarkOk(s, q.space, q.name);
    assert Matches(s.requests, id, q.space, q.name);
    match e
    case Cancel(space, name) =>
      var x := MarkedRequest(s, space, name);
    case Rename(space, name, target) =>
      var x := MarkedRequest(s, space, name);
    case _ =>
  }

  lemma ApplyAlive(s: State, e: Event, space: nat)
    requires Inv(s) && Enabled(s, e) && space in s.spaces
    ensures var r := Apply(s, e);
      space in r.spaces && (r.spaces[space].active <==> s.spaces[space].active && e != Die(space))
  {}

  lemma DestroyTells(s: State, id: nat)
    requires Inv(s) && id in s.requests
    ensures var q := s.requests[id];
      && q.space in s.spaces
      && Told(Apply(s, Destroy(id)), Notice(id, q.right, if s.spaces[q.space].active then q.name else NULL))
  {
    assert Spaced(s, id);
    var r := Apply(s, Destroy(id));
    assert r.notices[|s.notices|].id == id;
  }

  lemma {:induction false} RunFollows(s: State, es: seq<Event>, id: nat)
    requires Inv(s) && id in s.requests
    ensures var q := s.requests[id];
      && q.space in s.spaces
      && Followed(Run(s, es), id, q, s.spaces[q.space].active, Effective(s, es))
    decreases |es|
  {
    var q := s.requests[id];
    assert Spaced(s, id);
    if es != [] {
      var e, t := es[0], Step(s, es[0]);
      var rest := Effective(t, es[1..]);
      if !Enabled(s, e) {
        RunFollows(t, es[1..], id);
        assert Effective(s, es) == rest;
      } else {
        ApplyKeeps(s, e);
        assert Effective(s, es)[0] == e && Effective(s, es)[1..] == rest;
        if e == Destroy(id) {
          DestroyTells(s, id);
          ApplyCounts(s, e);
          RunTold(t, es[1..], Notice(id, q.right, if s.spaces[q.space].active then q.name else NULL));
        } else {
          ApplyFollows(s, e, id);
          ApplyAlive(s, e, q.space);
          RunFollows(t, es[1..], id);
          FollowedLater(Run(s, es), id, q, s.spaces[q.space].active, e, rest);
          assert Effective(s, es) == [e] + rest;
        }
      }
    }
  }

  lemma FollowedLater(s: State, id: nat, q: Request, alive: bool, e: Event, es: seq<Event>)
    requires e != Destroy(id)
    requires Followed(s, id, q.(name := Renamed(q.space, q.name, e)), alive && e != Die(q.space), es)
    ensures Followed(s, id, q, alive, [e] + es)
  {
    var all := [e] + es;
    assert all[0] == e && all[1..] == es;
    if Destroy(id) in es {
      var us := Until(es, Destroy(id));
      assert Destroy(id) in all && Until(all, Destroy(id)) == [e] + us;
      assert ([e] + us)[0] == e && ([e] + us)[1..] == us;
      assert Die(q.space) in [e] + us <==> e == Die(q.space) || Die(q.space) in us;
    }
  }

  /** No event makes a space. */
  lemma {:induction false} RunSpaces(s: State, es: seq<Event>, space: nat)
    requires Inv(s) && space in Run(s, es).spaces
    ensures space in s.spaces
    decreases |es|
  {
    if es != [] {
      if Enabled(s, es[0]) {
        ApplyKeeps(s, es[0]);
        RunSpaces(Apply(s, es[0]), es[1..], space);
        ApplySpaces(s, es[0], space);
      } else {
        RunSpaces(s, es[1..], space);
      }
    }
  }

  lemma ApplySpaces(s: State, e: Event, space: nat)
    requires Inv(s) && Enabled(s, e) && space in Apply(s, e).spaces
    ensures space in s.spaces
  {
    if e.Destroy? {
      assert Spaced(s, e.id);
    }
  }

  /** A space is dead exactly if its death happened. */
  lemma {:induction false} RunAlive(s: State, es: seq<Event>, space: nat)
    requires Inv(s) && space in s.spaces
    ensures var r := Run(s, es);
      space in r.spaces && (r.spaces[space].active <==> s.spaces[space].active && Die(space) !in Effective(s, es))
    decreases |es|
  {
    if es != [] {
      var e, t := es[0], Step(s, es[0]);
      if Enabled(s, e) {
        ApplyKeeps(s, e);
        ApplyAlive(s, e, space);
        assert Effective(s, es) == [e] + Effective(t, es[1..]);
      } else {
        assert Effective(s, es) == Effective(t, es[1..]);
      }
      RunAlive(t, es[1..], space);
    }
  }

  /**
    * Every successful create leads to exactly one notification, with the right name.  As long as the
    * message is not received or destroyed, the request waits with the right it was given and the name it
    * has after all cancellations and renamings.  Afterwards there is one notification for it and no more,
    * to that right: with the null name if the space died before or the name was cancelled, and else with
    * the name as it was when the message went.
    */
  lemma OneNotification(size: nat, spaces: set<nat>, before: seq<Event>, after: seq<Event>, id: nat)
    requires size > 0 && id in Run(Start(size, spaces), before).requests
    ensures
      var start := Start(size, spaces);
      var q := Run(start, before).requests[id];
      var s := Run(Run(start, before), after);
      var es := Effective(Run(start, before), after);
      && Followed(s, id, q, Die(q.space) !in Effective(start, before), es)
      && (Noticed(s.notices, id) <==> Destroy(id) in es)
      && forall i, j :: 0 <= i < j < |s.notices| ==> !(s.notices[i].id == id && s.notices[j].id == id)
  {
    var start := Start(size, spaces);
    var s := Run(start, before);
    var r := Run(s, after);
    RunInv(size, spaces, []);
    RunInv(size, spaces, before);
    RunKeeps(s, after);
    RunFollows(s, after, id);
    var space := s.requests[id].space;
    RunSpaces(start, before, space);
    RunAlive(start, before, space);
    if Destroy(id) in Effective(s, after) {
      var n :| n in r.notices && n.id == id;
      var i :| 0 <= i < |r.notices| && r.notices[i] == n;
      assert Noticed(r.notices, id);
    }
  }
}
