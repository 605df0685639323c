/**
  * Msg-accepted requests (ipc/ipc_marequest.c): a request is in a hash table under a space and a name,
  * and the entry with that name is marked.  A bucket is the sequence of the requests on its list.
  */
module Marequest {
  import opened Options

  const NULL: nat := 0   // MACH_PORT_NAME_NULL

  datatype Request = Request(space: nat, name: nat, right: nat)

  /** `marked` are the names whose entry has IE_BITS_MAREQUEST. */
  datatype Space = Space(active: bool, marked: set<nat>)

  /** A msg-accepted notification, for a request that was destroyed. */
  datatype Notice = Notice(id: nat, right: nat, name: nat)

  datatype State = State(table: seq<seq<nat>>, requests: map<nat, Request>, spaces: map<nat, Space>,
                         notices: seq<Notice>, next: nat)

  datatype Return = Created(id: nat) | InvalidNotify | InProgress | NoNotify

  /**
    * What happens to the table: a forced message asks for a notification, for a port that has a name in
    * the space or none, with a notify port or a bad one, and with memory for a request or without; an entry
    * goes away or is renamed; the message is received or destroyed; a space dies.
    */
  datatype Event =
    | Create(space: nat, entry: Option<nat>, right: Option<nat>, memory: bool)
    | Cancel(space: nat, name: nat)
    | Rename(space: nat, name: nat, target: nat)
    | Destroy(id: nat)
    | Die(space: nat)

  /** IMAR_HASH, without generation numbers in names; the mask is one less than the size, a power of two. */
  function Hash(size: nat, space: nat, name: nat): (h: nat)
    requires size > 0
    ensures h < size
  {
    (space / 16 + name) % size
  }

  // ---------------------------------------------------------------- the lists

  predicate Matches(requests: map<nat, Request>, id: nat, space: nat, name: nat) {
    id in requests && requests[id].space == space && requests[id].name == name
  }

  /** The list without its first request for the space and the name. */
  function Unlinked(b: seq<nat>, requests: map<nat, Request>, space: nat, name: nat): seq<nat> {
    if b == [] then [] else if Matches(requests, b[0], space, name) then b[1..]
    else [b[0]] + Unlinked(b[1..], requests, space, name)
  }

  /** The first request for the space and the name. */
  function Found(b: seq<nat>, requests: map<nat, Request>, space: nat, name: nat): Option<nat> {
    if b == [] then None else if Matches(requests, b[0], space, name) then Some(b[0])
    else Found(b[1..], requests, space, name)
  }

  /** The walk along a list that keeps a pointer to the last link. */
  method Unlink(b: seq<nat>, requests: map<nat, Request>, space: nat, name: nat)
    returns (rest: seq<nat>, found: Option<nat>)
    ensures rest == Unlinked(b, requests, space, name) && found == Found(b, requests, space, name)
  {
    var last := 0;
    while last < |b| && !Matches(requests, b[last], space, name)
      invariant 0 <= last <= |b|
      invariant Unlinked(b, requests, space, name) == b[..last] + Unlinked(b[last..], requests, space, name)
      invariant Found(b, requests, space, name) == Found(b[last..], requests, space, name)
    {
      assert b[last..][1..] == b[last + 1..];
      last := last + 1;
    }
    if last == |b| {
      return b, None;
    }
    assert b[last..][1..] == b[last + 1..];
    return b[..last] + b[last + 1..], Some(b[last]);
  }

  // ---------------------------------------------------------------- the operations

  function Bucket(s: State, space: nat, name: nat): nat
    requires |s.table| > 0
  {
    Hash(|s.table|, space, name)
  }

  function Link(s: State, id: nat, space: nat, name: nat): State
    requires |s.table| > 0
  {
    var h := Bucket(s, space, name);
    s.(table := s.table[h := [id] + s.table[h]])
  }

  function Cut(s: State, space: nat, name: nat): State
    requires |s.table| > 0
  {
    var h := Bucket(s, space, name);
    s.(table := s.table[h := Unlinked(s.table[h], s.requests, space, name)])
  }

  function Marked(s: State, space: nat, marked: set<nat>): State
    requires space in s.spaces
  {
    s.(spaces := s.spaces[space := s.spaces[space].(marked := marked)])
  }

  function CreateReturn(s: State, space: nat, entry: Option<nat>, right: Option<nat>, memory: bool): Return
    requires space in s.spaces
  {
    if !memory then NoNotify
    else if !s.spaces[space].active then InvalidNotify
    else if entry.Some? && entry.value in s.spaces[space].marked then InProgress
    else if right.None? then InvalidNotify
    else Created(s.next)
  }

  function Creating(s: State, space: nat, entry: Option<nat>, right: Option<nat>, memory: bool): State
    requires |s.table| > 0 && space in s.spaces
  {
    if !CreateReturn(s, space, entry, right, memory).Created? then s
    else
      var q := Request(space, if entry.Some? then entry.value else NULL, right.value);
      var r := s.(requests := s.requests[s.next := q], next := s.next + 1);
      if entry.None? then r
      else Marked(Link(r, s.next, space, entry.value), space, s.spaces[space].marked + {entry.value})
  }

  function Canceling(s: State, space: nat, name: nat): State
    requires |s.table| > 0 && space in s.spaces
  {
    match Found(s.table[Bucket(s, space, name)], s.requests, space, name)
    case None => s
    case Some(id) =>
      var r := Marked(Cut(s, space, name), space, s.spaces[space].marked - {name});
      if id in s.requests then r.(requests := s.requests[id := s.requests[id].(name := NULL)]) else r
  }

  function Renaming(s: State, space: nat, name: nat, target: nat): State
    requires |s.table| > 0 && space in s.spaces
  {
    match Found(s.table[Bucket(s, space, name)], s.requests, space, name)
    case None => s
    case Some(id) =>
      var r := Marked(Cut(s, space, name), space, s.spaces[space].marked - {name} + {target});
      var q := if id in s.requests then r.(requests := s.requests[id := s.requests[id].(name := target)]) else r;
      Link(q, id, space, target)
  }

  function Destroying(s: State, id: nat): State
    requires |s.table| > 0 && id in s.requests && s.requests[id].space in s.spaces
  {
    var q := s.requests[id];
    var active := s.spaces[q.space].active;
    var r := if q.name == NULL then s
             else if active then Marked(Cut(s, q.space, q.name), q.space, s.spaces[q.space].marked - {q.name})
             else Cut(s, q.space, q.name);
    r.(requests := s.requests - {id}, notices := s.notices + [Notice(id, q.right, if active then q.name else NULL)])
  }

  predicate Enabled(s: State, e: Event) {
    match e
    case Create(space, entry, _, _) => space in s.spaces && (entry.Some? ==> entry.value != NULL)
    case Cancel(space, name) => space in s.spaces && s.spaces[space].active && name in s.spaces[space].marked
    case Rename(space, name, target) =>
      space in s.spaces && s.spaces[space].active && name in s.spaces[space].marked
        && target !in s.spaces[space].marked && target != NULL
    case Destroy(id) => id in s.requests
    case Die(space) => space in s.spaces
  }

  function Apply(s: State, e: Event): State
    requires Shape(s) && Enabled(s, e)
  {
    match e
    case Create(space, entry, right, memory) => Creating(s, space, entry, right, memory)
    case Cancel(space, name) => Canceling(s, space, name)
    case Rename(space, name, target) => Renaming(s, space, name, target)
    case Destroy(id) => assert Spaced(s, id); Destroying(s, id)
    case Die(space) => s.(spaces := s.spaces[space := s.spaces[space].(active := false)])
  }

  // ---------------------------------------------------------------- the invariant

  ghost predicate Spaced(s: State, id: nat) { id in s.requests ==> s.requests[id].space in s.spaces && id < s.next }

  ghost predicate Shape(s: State) {
    |s.table| > 0 && forall id {:trigger Spaced(s, id)} :: Spaced(s, id)
  }

  ghost predicate At(table: seq<seq<nat>>, i: nat, id: nat) { i < |table| && id in table[i] }

  /** A request is on a list if and only if it has a name, and then on the right one. */
  ghost predicate LinkedOk(s: State, i: nat, id: nat)
    requires |s.table| > 0
  {
    At(s.table, i, id) <==>
      && id in s.requests && s.requests[id].name != NULL
      && i == Bucket(s, s.requests[id].space, s.requests[id].name)
  }

  /** No two requests with a name have the same space and name. */
  ghost predicate Unique(s: State) {
    forall id, id', space, name
      {:trigger Matches(s.requests, id, space, name), Matches(s.requests, id', space, name)} ::
      Matches(s.requests, id, space, name) && Matches(s.requests, id', space, name) && name != NULL ==> id == id'
  }

  /** In an active space an entry is marked if and only if there is a request for it. */
  ghost predicate MarkOk(s: State, space: nat, name: nat) {
    space in s.spaces && s.spaces[space].active ==>
      (name in s.spaces[space].marked <==> name != NULL && exists id :: Matches(s.requests, id, space, name))
  }

  /** Every request ever created is waiting or was notified of, once. */
  ghost predicate NoticesOk(s: State) {
    && (forall id: nat :: Noticed(s.notices, id) ==> id !in s.requests && id < s.next)
    && (forall id: nat :: id < s.next ==> id in s.requests || Noticed(s.notices, id))
    && (forall i, j :: 0 <= i < j < |s.notices| ==> s.notices[i].id != s.notices[j].id)
  }

  ghost predicate Noticed(notices: seq<Notice>, id: nat) { exists i :: 0 <= i < |notices| && notices[i].id == id }

  ghost predicate Inv(s: State) {
    && Shape(s) && Unique(s) && NoticesOk(s)
    && (forall i, id {:trigger LinkedOk(s, i, id)} :: LinkedOk(s, i, id))
    && (forall space, name {:trigger MarkOk(s, space, name)} :: MarkOk(s, space, name))
    && (forall i {:trigger s.table[i]} :: 0 <= i < |s.table| ==> Distinct(s.table[i]))
  }

  // ---------------------------------------------------------------- the operations in place

  class Requests {
    var table: seq<seq<nat>>
    var requests: map<nat, Request>
    var spaces: map<nat, Space>
    var notices: seq<Notice>
    var next: nat

    ghost function View(): State
      reads this
    {
      State(table, requests, spaces, notices, next)
    }

    constructor (size: nat, live: set<nat>)
      ensures View() == State(seq(size, _ => []), map[], map x | x in live :: Space(true, {}), [], 0)
    {
      table, requests, spaces := seq(size, _ => []), map[], map x | x in live :: Space(true, {});
      notices, next := [], 0;
    }

    method Mark(space: nat, marked: set<nat>)
      requires space in spaces
      modifies this`spaces
      ensures View() == Marked(old(View()), space, marked)
    {
      spaces := spaces[space := spaces[space].(marked := marked)];
    }

    /** ipc_marequest_create. */
    method DoCreate(space: nat, entry: Option<nat>, right: Option<nat>, memory: bool) returns (r: Return)
      requires |table| > 0 && space in spaces
      modifies this
      ensures r == CreateReturn(old(View()), space, entry, right, memory)
      ensures View() == Creating(old(View()), space, entry, right, memory)
    {
      if !memory {
        return NoNotify;
      }
      if !spaces[space].active {
        return InvalidNotify;
      }
      var id := next;
      match entry {
        case Some(name) =>
          if name in spaces[space].marked {
            return InProgress;
          }
          if right.None? {
            return InvalidNotify;
          }
          var marked := spaces[space].marked + {name};
          requests, next := requests[id := Request(space, name, right.value)], next + 1;
          var h := Hash(|table|, space, name);
          table := table[h := [id] + table[h]];
          Mark(space, marked);
        case None =>
          if right.None? {
            return InvalidNotify;
          }
          requests, next := requests[id := Request(space, NULL, right.value)], next + 1;
      }
      return Created(id);
    }

    /** Taking the request for a name off its list. */
    method TakeOff(space: nat, name: nat) returns (found: Option<nat>)
      requires |table| > 0
      modifies this`table
      ensures View() == Cut(old(View()), space, name)
      ensures found == Found(old(table)[Bucket(old(View()), space, name)], requests, space, name)
    {
      var h := Hash(|table|, space, name);
      var rest;
      rest, found := Unlink(table[h], requests, space, name);
      table := table[h := rest];
    }

    /** ipc_marequest_cancel, with the entry's mark. */
    method DoCancel(space: nat, name: nat)
      requires |table| > 0 && space in spaces
      requires Found(table[Bucket(View(), space, name)], requests, space, name).Some?
      modifies this
      ensures View() == Canceling(old(View()), space, name)
    {
      var found := TakeOff(space, name);
      Mark(space, spaces[space].marked - {name});
      if found.value in requests {
        requests := requests[found.value := requests[found.value].(name := NULL)];
      }
    }

    /** ipc_marequest_rename, with the entries' marks. */
    method DoRename(space: nat, name: nat, target: nat)
      requires |table| > 0 && space in spaces
      requires Found(table[Bucket(View(), space, name)], requests, space, name).Some?
      modifies this
      ensures View() == Renaming(old(View()), space, name, target)
    {
      var found := TakeOff(space, name);
      Mark(space, spaces[space].marked - {name} + {target});
      if found.value in requests {
        requests := requests[found.value := requests[found.value].(name := target)];
      }
      var h := Hash(|table|, space, target);
      table := table[h := [found.value] + table[h]];
    }

    /** ipc_marequest_destroy. */
    method DoDestroy(id: nat)
      requires |table| > 0 && id in requests && requests[id].space in spaces
      modifies this
      ensures View() == Destroying(old(View()), id)
    {
      var q := requests[id];
      var name := q.name;
      if q.name != NULL {
        var _ := TakeOff(q.space, q.name);
        if spaces[q.space].active {
          Mark(q.space, spaces[q.space].marked - {q.name});
        } else {
          name := NULL;
        }
      }
      requests := requests - {id};
      notices := notices + [Notice(id, q.right, name)];
    }
  }
}
