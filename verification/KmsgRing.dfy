/** The message queue of ipc/ipc_kmsg.h: a circular, doubly linked ring with no sentinel. */
module KmsgRing {
  import opened Options

  /** The queue links of a kernel message; `owned` are the messages that cleaning it destroys. */
  class Kmsg {
    var next: Kmsg?
    var prev: Kmsg?
    const owned: seq<Kmsg>

    constructor (owned: seq<Kmsg>)
      ensures this.owned == owned
    {
      this.owned := owned;
    }
  }

  function After(i: nat, n: nat): nat
    requires i < n
  {
    if i + 1 == n then 0 else i + 1
  }

  function Before(i: nat, n: nat): nat
    requires i < n
  {
    if i == 0 then n - 1 else i - 1
  }

  /** Message `i` of `s` is linked to its two neighbours on the ring. */
  ghost predicate Linked(s: seq<Kmsg>, i: nat)
    requires i < |s|
    reads s[i]
  {
    s[i].next == s[After(i, |s|)] && s[i].prev == s[Before(i, |s|)]
  }

  ghost predicate Ring(s: seq<Kmsg>)
    reads s
  {
    Distinct(s) && forall i :: 0 <= i < |s| ==> Linked(s, i)
  }

  /** Where place `j` of the shorter queue was in the longer one. */
  function Shift(j: nat, i: nat): nat { if j < i then j else j + 1 }

  /** The neighbours of a place are what they were, or what was beyond the one taken out. */
  lemma ShiftNeighbours(j: nat, i: nat, n: nat)
    requires i < n && j < n - 1
    ensures Shift(After(j, n - 1), i) == (if After(Shift(j, i), n) == i then After(i, n) else After(Shift(j, i), n))
    ensures Shift(Before(j, n - 1), i) == (if Before(Shift(j, i), n) == i then Before(i, n) else Before(Shift(j, i), n))
  {}

  /** The queue without place `i`: who is at a place, and who are the neighbours. */
  lemma RemovedNeighbours<T>(s: seq<T>, i: nat, j: nat)
    requires i < |s| && j < |s| - 1
    ensures var r, at := RemoveAt(s, i), Shift(j, i);
      && |r| == |s| - 1 && r[j] == s[at] && at < |s|
      && r[After(j, |r|)] == s[if After(at, |s|) == i then After(i, |s|) else After(at, |s|)]
      && r[Before(j, |r|)] == s[if Before(at, |s|) == i then Before(i, |s|) else Before(at, |s|)]
  {
    ShiftNeighbours(j, i, |s|);
  }

  lemma RemovedDistinct<T>(s: seq<T>, i: nat)
    requires i < |s| && Distinct(s)
    ensures Distinct(RemoveAt(s, i)) && s[i] !in RemoveAt(s, i)
  {}

  class Queue {
    var base: Kmsg?
    ghost var contents: seq<Kmsg>

    ghost predicate Valid()
      reads this, contents
    {
      && (base == if contents == [] then null else contents[0])
      && Ring(contents)
    }

    constructor ()
      ensures Valid() && contents == []
    {
      base, contents := null, [];
    }

    /** ipc_kmsg_enqueue_macro. */
    method Enqueue(kmsg: Kmsg)
      requires Valid() && kmsg !in contents
      modifies this, contents, kmsg
      ensures Valid() && contents == old(contents) + [kmsg]
    {
      var first := base;
      if first == null {
        base := kmsg;
        kmsg.next := kmsg;
        kmsg.prev := kmsg;
      } else {
        ghost var n := |contents|;
        assert Linked(contents, 0) && Linked(contents, n - 1);
        var last := first.prev;
        kmsg.next := first;
        kmsg.prev := last;
        first.prev := kmsg;
        last.next := kmsg;
      }
      contents := contents + [kmsg];
      forall i | 0 <= i < |contents| ensures Linked(contents, i) {
        if i < |old(contents)| {
          assert old(Linked(contents, i));
          assert contents[i] == old(contents)[i];
        }
      }
    }

    /** ipc_kmsg_rmqueue, for the message at place `i` of the queue. */
    method Remove(kmsg: Kmsg, ghost i: nat)
      requires Valid() && i < |contents| && contents[i] == kmsg
      modifies this, contents
      ensures Valid() && contents == RemoveAt(old(contents), i)
    {
      assert Linked(contents, i);
      var next, prev := kmsg.next, kmsg.prev;
      if next == kmsg {
        base := null;
      } else {
        if base == kmsg {
          base := next;
        }
        next.prev := prev;
        prev.next := next;
      }
      kmsg.next, kmsg.prev := null, null;
      contents := RemoveAt(contents, i);
      RemovedDistinct(old(contents), i);
      forall j | 0 <= j < |contents| ensures Linked(contents, j) {
        RemovedNeighbours(old(contents), i, j);
        assert old(Linked(contents, Shift(j, i)));
      }
    }

    /** ipc_kmsg_dequeue. */
    method Dequeue() returns (first: Kmsg?)
      requires Valid()
      modifies this, contents
      ensures Valid()
      ensures old(contents) == [] ==> first == null && contents == []
      ensures old(contents) != [] ==> first == old(contents)[0] && contents == old(contents)[1..]
    {
      first := base;
      if first != null {
        Remove(first, 0);
      }
    }

    /** ipc_kmsg_queue_next. */
    method Next(kmsg: Kmsg, ghost i: nat) returns (next: Kmsg?)
      requires Valid() && i < |contents| && contents[i] == kmsg
      ensures next == if i + 1 < |contents| then contents[i + 1] else null
    {
      assert Linked(contents, i);
      next := kmsg.next;
      if base == next {
        next := null;
      }
    }
  }
}
