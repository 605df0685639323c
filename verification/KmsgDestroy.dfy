/**
  * ipc_kmsg_destroy: cleaning a message can destroy the messages it owns, and a
  * queue kept by the thread cuts that recursion to one level.
  */
module KmsgDestroy {
  import opened Options
  import opened KmsgRing

  /** A finite forest of messages owning messages. */
  datatype Tree = Node(kmsg: Kmsg, owned: seq<Tree>)

  function Roots(ts: seq<Tree>): seq<Kmsg> {
    seq(|ts|, i requires 0 <= i < |ts| => ts[i].kmsg)
  }

  /** The tree says what the messages own. */
  ghost predicate Describes(t: Tree) {
    t.kmsg.owned == Roots(t.owned) && forall c :: c in t.owned ==> Describes(c)
  }

  /** Everything reachable from the roots, parents before children. */
  function Reachable(ts: seq<Tree>): seq<Kmsg> {
    if ts == [] then [] else [ts[0].kmsg] + Reachable(ts[0].owned) + Reachable(ts[1..])
  }

  function Size(ts: seq<Tree>): nat {
    if ts == [] then 0 else 1 + Size(ts[0].owned) + Size(ts[1..])
  }

  lemma {:induction false} SizeAppend(a: seq<Tree>, b: seq<Tree>)
    ensures Size(a + b) == Size(a) + Size(b)
  {
    if a == [] {
      assert a + b == b;
    } else {
      assert (a + b)[1..] == a[1..] + b;
      SizeAppend(a[1..], b);
    }
  }

  lemma {:induction false} ReachableAppend(a: seq<Tree>, b: seq<Tree>)
    ensures Reachable(a + b) == Reachable(a) + Reachable(b)
  {
    if a == [] {
      assert a + b == b;
    } else {
      assert (a + b)[1..] == a[1..] + b;
      ReachableAppend(a[1..], b);
    }
  }

  /** The order in which a drain of the queue frees what hangs below it. */
  function Drained(ts: seq<Tree>): seq<Kmsg>
    decreases Size(ts)
  {
    if ts == [] then []
    else
      SizeAppend(ts[1..], ts[0].owned);
      [ts[0].kmsg] + Drained(ts[1..] + ts[0].owned)
  }

  /** A drain frees every reachable message, and each as often as it is reachable. */
  lemma {:induction false} DrainsReachable(ts: seq<Tree>)
    ensures multiset(Drained(ts)) == multiset(Reachable(ts))
    decreases Size(ts)
  {
    if ts != [] {
      SizeAppend(ts[1..], ts[0].owned);
      DrainsReachable(ts[1..] + ts[0].owned);
      ReachableAppend(ts[1..], ts[0].owned);
    }
  }

  lemma DistinctByCount<T>(s: seq<T>)
    requires forall x :: x in s ==> multiset(s)[x] == 1
    ensures Distinct(s)
  {
    forall i, j | 0 <= i < j < |s| ensures s[i] != s[j] {
      assert s == s[..i] + [s[i]] + s[i + 1..];
      assert s[j] in s[i + 1..];
      assert multiset(s)[s[i]] == multiset(s[..i])[s[i]] + 1 + multiset(s[i + 1..])[s[i]];
    }
  }

  lemma {:induction false} CountOfDistinct<T>(s: seq<T>)
    requires Distinct(s)
    ensures forall x :: x in s ==> multiset(s)[x] == 1
  {
    if s != [] {
      CountOfDistinct(s[1..]);
      assert s == [s[0]] + s[1..];
      assert s[0] !in s[1..];
    }
  }

  /** In a forest no message is reachable twice, so none is freed twice. */
  lemma FreedOnce(ts: seq<Tree>)
    requires Distinct(Reachable(ts))
    ensures Distinct(Drained(ts))
  {
    DrainsReachable(ts);
    CountOfDistinct(Reachable(ts));
    forall x | x in Drained(ts) ensures multiset(Drained(ts))[x] == 1 {
      assert x in multiset(Reachable(ts));
    }
    DistinctByCount(Drained(ts));
  }

  lemma {:induction false} DrainsRootsFirst(ts: seq<Tree>)
    ensures |ts| <= |Drained(ts)| && Drained(ts)[..|ts|] == Roots(ts)
    decreases Size(ts)
  {
    if ts != [] {
      SizeAppend(ts[1..], ts[0].owned);
      var rest := ts[1..] + ts[0].owned;
      DrainsRootsFirst(rest);
      forall i | 0 <= i < |ts| ensures Drained(ts)[i] == ts[i].kmsg {
        if i > 0 {
          assert Drained(rest)[..|rest|][i - 1] == rest[i - 1].kmsg;
        }
      }
    }
  }

  lemma DrainedNext(ts: seq<Tree>)
    requires ts != []
    ensures Drained(ts) == [ts[0].kmsg] + Drained(ts[1..] + ts[0].owned)
  {
    SizeAppend(ts[1..], ts[0].owned);
  }

  lemma RootsNext(ts: seq<Tree>)
    requires ts != []
    ensures Roots(ts) + Roots(ts[0].owned) == [ts[0].kmsg] + Roots(ts[1..] + ts[0].owned)
  {}

  /** What the queue holds is distinct from what its first message owns. */
  lemma OwnedApart(ts: seq<Tree>)
    requires ts != [] && Distinct(Drained(ts))
    ensures Distinct(Roots(ts) + Roots(ts[0].owned))
    ensures Distinct(Drained(ts[1..] + ts[0].owned))
  {
    var rest := ts[1..] + ts[0].owned;
    var d := Drained(rest);
    DrainedNext(ts);
    DrainsRootsFirst(rest);
    RootsNext(ts);
    DistinctTail(ts[0].kmsg, d, |rest|);
  }

  lemma DistinctTail<T>(x: T, d: seq<T>, n: nat)
    requires Distinct([x] + d) && n <= |d|
    ensures Distinct(d) && Distinct([x] + d[..n])
  {
    var s := [x] + d;
    forall i, j | 0 <= i < j < |d| ensures d[i] != d[j] {
      assert s[i + 1] == d[i] && s[j + 1] == d[j];
    }
    assert [x] + d[..n] == s[..n + 1];
  }

  /** The messages of a forest. */
  ghost function All(ts: seq<Tree>): set<Kmsg> {
    set k | k in Reachable(ts)
  }

  lemma {:induction false} RootReachable(ts: seq<Tree>, i: nat)
    requires i < |ts|
    ensures ts[i].kmsg in All(ts) && All(ts[i].owned) <= All(ts)
  {
    if i > 0 {
      RootReachable(ts[1..], i - 1);
    }
  }

  lemma RootsReachable(ts: seq<Tree>)
    ensures forall i :: 0 <= i < |ts| ==> Roots(ts)[i] in All(ts)
  {
    forall i | 0 <= i < |ts| ensures Roots(ts)[i] in All(ts) {
      RootReachable(ts, i);
    }
  }

  lemma AllOne(ts: seq<Tree>, i: nat)
    requires i < |ts|
    ensures All([ts[i]]) <= All(ts)
  {
    RootReachable(ts, i);
    assert Reachable([ts[i]]) == [ts[i].kmsg] + Reachable(ts[i].owned);
  }

  lemma AllAppend(a: seq<Tree>, b: seq<Tree>)
    ensures All(a + b) == All(a) + All(b)
  {
    ReachableAppend(a, b);
  }

  /** The thread's queue of messages being destroyed, and what was cleaned and freed. */
  class Worklist {
    const messages: Queue
    var cleaned: seq<Kmsg>
    var freed: seq<Kmsg>
    ghost var trees: seq<Tree>

    ghost predicate Valid()
      reads this, messages, messages.contents
    {
      messages.Valid() && messages.contents == Roots(trees) && forall t :: t in trees ==> Describes(t)
    }

    constructor ()
      ensures Valid() && trees == [] && cleaned == [] && freed == []
    {
      messages := new Queue();
      cleaned, freed, trees := [], [], [];
    }

    method Add(kmsg: Kmsg, ghost t: Tree)
      requires Valid() && t.kmsg == kmsg && Describes(t) && kmsg !in messages.contents
      modifies this`trees, messages, messages.contents, kmsg
      ensures Valid() && trees == old(trees) + [t]
    {
      messages.Enqueue(kmsg);
      trees := trees + [t];
      assert messages.contents == Roots(trees);
    }

    /** ipc_kmsg_destroy. */
    method Destroy(kmsg: Kmsg, ghost t: Tree)
      requires Valid() && t.kmsg == kmsg && Describes(t)
      requires if trees == [] then Distinct(Reachable([t])) else kmsg !in messages.contents
      modifies this, messages, messages.contents, All([t])
      ensures Valid()
      ensures old(trees) != [] ==> trees == old(trees) + [t] && cleaned == old(cleaned) && freed == old(freed)
      ensures old(trees) == [] ==>
        trees == [] && cleaned == old(cleaned) + Drained([t]) && freed == old(freed) + Drained([t])
      decreases if trees == [] then 2 else 0, 1
    {
      RootReachable([t], 0);
      var empty := messages.base == null;
      Add(kmsg, t);
      if empty {
        FreedOnce([t]);
        assert trees == [t];
        while messages.base != null
          invariant Valid() && Distinct(Drained(trees)) && All(trees) <= All([t])
          invariant cleaned + Drained(trees) == old(cleaned) + Drained([t])
          invariant freed + Drained(trees) == old(freed) + Drained([t])
          decreases Size(trees)
        {
          DrainedNext(trees);
          SizeAppend(trees[1..], trees[0].owned);
          DrainOne();
        }
      }
    }

    /** One turn of the drain loop: the first message is cleaned while still queued, unlinked and freed. */
    method DrainOne()
      requires Valid() && trees != [] && Distinct(Drained(trees))
      modifies this, messages, All(trees)
      ensures Valid() && trees == old(trees[1..] + trees[0].owned)
      ensures Distinct(Drained(trees)) && All(trees) <= old(All(trees))
      ensures cleaned == old(cleaned + [trees[0].kmsg]) && freed == old(freed + [trees[0].kmsg])
      decreases 2, 0
    {
      var first := messages.base;
      ghost var was := trees;
      RootsReachable(was);
      RootReachable(was, 0);
      OwnedApart(was);
      assert Describes(was[0]);
      Clean(first, was[0]);
      RootsReachable(was[0].owned);
      assert trees[1..] == was[1..] + was[0].owned;
      assert Roots(trees) == Roots(was) + Roots(was[0].owned);
      assert forall i :: 0 <= i < |messages.contents| ==> messages.contents[i] in All(was);
      Unlink(first);
      freed := freed + [first];
      AllAppend(was[..1], was[1..]);
      assert was == was[..1] + was[1..];
      AllAppend(was[1..], was[0].owned);
    }

    method Unlink(first: Kmsg)
      requires Valid() && trees != [] && trees[0].kmsg == first
      modifies this`trees, messages, messages.contents
      ensures Valid() && trees == old(trees)[1..]
    {
      RootsTail(trees);
      messages.Remove(first, 0);
      trees := trees[1..];
    }

    /** The part of ipc_kmsg_clean that matters here: it destroys, in order, what the message owns. */
    method Clean(kmsg: Kmsg, ghost t: Tree)
      requires Valid() && trees != [] && trees[0] == t && t.kmsg == kmsg
      requires Distinct(messages.contents + kmsg.owned)
      modifies this, messages, messages.contents, All(t.owned)
      ensures Valid() && trees == old(trees) + t.owned
      ensures cleaned == old(cleaned) + [kmsg] && freed == old(freed)
      decreases 1
    {
      assert Describes(t);
      ghost var both := messages.contents + kmsg.owned;
      RootsReachable(t.owned);
      var i := 0;
      while i < |kmsg.owned|
        invariant 0 <= i <= |kmsg.owned| && Valid()
        invariant trees == old(trees) + t.owned[..i]
        invariant messages.contents == both[..|old(trees)| + i]
        invariant cleaned == old(cleaned) && freed == old(freed)
      {
        AllOne(t.owned, i);
        assert kmsg.owned[i] == both[|old(trees)| + i];
        Destroy(kmsg.owned[i], t.owned[i]);
        i := i + 1;
      }
      cleaned := cleaned + [kmsg];
    }
  }

  lemma RootsTail(ts: seq<Tree>)
    requires ts != []
    ensures Roots(ts[1..]) == Roots(ts)[1..] == RemoveAt(Roots(ts), 0)
  {}
}
