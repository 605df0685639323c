/**
  * The rings of a session table (device/net_io.c).  A bucket is a pointer to the first entry of a ring of
  * entries, without a sentinel; what is removed goes to a list of dead entries that is linked through the
  * same pointers.
  */
module SessionRing {
  import opened Options
  import opened Bpf
  import opened SessionTable
  import opened SessionInstall
  import opened KmsgRing

  /** struct net_hash_entry. */
  class Node {
    var next: Node?
    var prev: Node?
    const entry: Entry

    constructor (entry: Entry)
      ensures this.entry == entry
    {
      this.entry := entry;
    }
  }

  function EntriesOf(nodes: seq<Node>): (r: seq<Entry>)
    ensures |r| == |nodes| && forall i :: 0 <= i < |r| ==> r[i] == nodes[i].entry
  {
    seq(|nodes|, i requires 0 <= i < |nodes| => nodes[i].entry)
  }

  /** Entry `i` of `s` is linked to its two neighbours on the ring. */
  ghost predicate Joined(s: seq<Node>, i: nat)
    requires i < |s|
    reads s[i]
  {
    s[i].next == s[After(i, |s|)] && s[i].prev == s[Before(i, |s|)]
  }

  ghost predicate Round(s: seq<Node>)
    reads s
  {
    Distinct(s) && forall i :: 0 <= i < |s| ==> Joined(s, i)
  }

  ghost predicate Apart(a: seq<Node>, b: seq<Node>) { forall n :: n in a ==> n !in b }

  ghost predicate Chained(s: seq<Node>, i: nat)
    requires i < |s|
    reads s[i]
  {
    s[i].next == if i + 1 < |s| then s[i + 1] else null
  }

  /** What ENQUEUE_DEAD builds: a list that ends with a null pointer. */
  class DeadList {
    var first: Node?
    ghost var nodes: seq<Node>

    ghost predicate Valid()
      reads this, nodes
    {
      && first == (if nodes == [] then null else nodes[0]) && Distinct(nodes)
      && forall i :: 0 <= i < |nodes| ==> Chained(nodes, i)
    }

    constructor ()
      ensures Valid() && nodes == []
    {
      first, nodes := null, [];
    }

    method Push(n: Node)
      requires Valid() && n !in nodes
      modifies this, n`next
      ensures Valid() && nodes == [n] + old(nodes)
    {
      n.next := first;
      first := n;
      nodes := [n] + nodes;
      forall i | 0 <= i < |nodes| ensures Chained(nodes, i) {
        if i > 0 {
          assert old(Chained(nodes, i - 1)) && nodes[i] == old(nodes)[i - 1];
        }
      }
    }
  }

  // ---------------------------------------------------------------- the walk, on entries

  lemma {:induction false} KeptFirst(b: seq<Entry>, gone: set<nat>)
    requires b != [] && b[0].port !in gone
    ensures Kept(b, gone) != [] && Kept(b, gone)[0] == b[0]
  {
    if |b| > 1 {
      KeptFirst(b[..|b| - 1], gone);
    }
  }

  /**
    * What the walk leaves of a bucket when it is at place `j`.  It ends at the end of the bucket, and when
    * the first entry goes.
    */
  function Finish(b: seq<Entry>, j: nat, gone: set<nat>): seq<Entry>
    requires j < |b|
    decreases |b| - j
  {
    if b[j].port in gone then
      if j == 0 || j + 1 == |b| then RemoveAt(b, j) else Finish(RemoveAt(b, j), j, gone)
    else
      if j + 1 == |b| then b else Finish(b, j + 1, gone)
  }

  /** The walk is at place `j` of the bucket `b`, which is entry `q` of what the bucket was. */
  ghost predicate Walking(b0: seq<Entry>, q: nat, gone: set<nat>, b: seq<Entry>, j: nat) {
    && q < |b0| && b == Kept(b0[..q], gone) + b0[q..] && j == |Kept(b0[..q], gone)|
    && (q > 0 ==> b0[0].port !in gone)
  }

  lemma WalkStarts(b: seq<Entry>, gone: set<nat>)
    requires b != []
    ensures Walking(b, 0, gone, b, 0)
  {}

  lemma WalkGone(b0: seq<Entry>, q: nat, gone: set<nat>, b: seq<Entry>, j: nat)
    requires Walking(b0, q, gone, b, j) && b[j].port in gone
    ensures j < |b|
    ensures if j != 0 && j + 1 != |b| then Walking(b0, q + 1, gone, RemoveAt(b, j), j)
      else RemoveAt(b, j) == Scanned(b0, gone)
  {
    assert b[j] == b0[q];
    assert b0[..q + 1][..q] == b0[..q];
    assert RemoveAt(b, j) == Kept(b0[..q], gone) + b0[q + 1..];
    if q > 0 {
      KeptFirst(b0[..q], gone);
    }
    if j + 1 == |b| {
      assert b0[..q + 1] == b0;
    }
  }

  lemma WalkKept(b0: seq<Entry>, q: nat, gone: set<nat>, b: seq<Entry>, j: nat)
    requires Walking(b0, q, gone, b, j) && b[j].port !in gone
    ensures j < |b| && if j + 1 != |b| then Walking(b0, q + 1, gone, b, j + 1) else b == Scanned(b0, gone)
  {
    assert b[j] == b0[q];
    assert b0[..q + 1][..q] == b0[..q];
    assert Kept(b0[..q + 1], gone) == Kept(b0[..q], gone) + [b0[q]];
    assert b == Kept(b0[..q + 1], gone) + b0[q + 1..];
    if j + 1 == |b| {
      assert b0[..q + 1] == b0;
    }
  }

  lemma {:induction false} FinishFrom(b0: seq<Entry>, q: nat, gone: set<nat>, b: seq<Entry>, j: nat)
    requires Walking(b0, q, gone, b, j)
    ensures j < |b| && Finish(b, j, gone) == Scanned(b0, gone)
    decreases |b0| - q
  {
    if b[j].port in gone {
      WalkGone(b0, q, gone, b, j);
      if j != 0 && j + 1 != |b| {
        FinishFrom(b0, q + 1, gone, RemoveAt(b, j), j);
      }
    } else {
      WalkKept(b0, q, gone, b, j);
      if j + 1 != |b| {
        FinishFrom(b0, q + 1, gone, b, j + 1);
      }
    }
  }

  /** The walk from the first entry leaves what `Scanned` says. */
  lemma FinishScans(b: seq<Entry>, gone: set<nat>)
    requires b != []
    ensures Finish(b, 0, gone) == Scanned(b, gone)
  {
    WalkStarts(b, gone);
    FinishFrom(b, 0, gone, b, 0);
  }

  lemma RemovedEntries(nodes: seq<Node>, j: nat)
    requires j < |nodes|
    ensures EntriesOf(RemoveAt(nodes, j)) == RemoveAt(EntriesOf(nodes), j)
  {}

  lemma RemovedCounts(nodes: seq<Node>, j: nat, dead: seq<Node>)
    requires j < |nodes|
    ensures multiset(RemoveAt(nodes, j)) + multiset([nodes[j]] + dead) == multiset(nodes) + multiset(dead)
    ensures |RemoveAt(nodes, j)| == |nodes| - 1 && forall n :: n in RemoveAt(nodes, j) ==> n in nodes
  {
    assert nodes == nodes[..j] + [nodes[j]] + nodes[j + 1..];
  }

  /** Entries moved from a ring to the dead list, and none was lost. */
  ghost predicate Moved(nodes: seq<Node>, dead: seq<Node>, nodes': seq<Node>, dead': seq<Node>) {
    multiset(nodes') + multiset(dead') == multiset(nodes) + multiset(dead) && forall n :: n in nodes' ==> n in nodes
  }

  lemma MovedInside(nodes: seq<Node>, dead: seq<Node>, nodes': seq<Node>, dead': seq<Node>)
    requires Moved(nodes, dead, nodes', dead')
    ensures forall i :: 0 <= i < |nodes'| ==> nodes'[i] in nodes
  {}

  lemma MovedFrom(nodes: seq<Node>, dead: seq<Node>, nodes': seq<Node>, dead': seq<Node>, n: Node)
    requires Moved(nodes, dead, nodes', dead') && n in dead'
    ensures n in nodes || n in dead
  {
    assert n in multiset(nodes') + multiset(dead');
    assert n in multiset(nodes) + multiset(dead);
  }

  // ---------------------------------------------------------------- the rings

  /** What `*head` points to. */
  class Bucket {
    var head: Node?
    ghost var nodes: seq<Node>

    ghost predicate Valid()
      reads this, nodes
    {
      head == (if nodes == [] then null else nodes[0]) && Round(nodes)
    }

    constructor ()
      ensures Valid() && nodes == []
    {
      head, nodes := null, [];
    }

    /** A new entry: queue_init for the first, else enqueue_tail with the first entry as the queue. */
    method Append(n: Node)
      requires Valid() && n !in nodes
      modifies this, nodes, n
      ensures Valid() && nodes == old(nodes) + [n]
    {
      if head == null {
        n.next, n.prev := n, n;
        head := n;
      } else {
        var que := head;
        assert Joined(nodes, 0) && Joined(nodes, |nodes| - 1);
        n.next := que;
        n.prev := que.prev;
        n.prev.next := n;
        que.prev := n;
      }
      nodes := nodes + [n];
      forall i | 0 <= i < |nodes| ensures Joined(nodes, i) {
        if i < |old(nodes)| {
          assert old(Joined(nodes, i));
          assert nodes[i] == old(nodes)[i];
        }
      }
    }

    /** The search of bpf_match round the ring. */
    method Find(keys: seq<u32>) returns (found: Node?, ghost j: nat)
      requires Valid()
      ensures j == First(EntriesOf(nodes), keys) && found == if j < |nodes| then nodes[j] else null
    {
      j := 0;
      if head == null {
        return null, 0;
      }
      var entp: Node := head;
      while entp.entry.keys != keys
        invariant j < |nodes| && nodes[j] == entp && forall l :: 0 <= l < j ==> EntriesOf(nodes)[l].keys != keys
        decreases |nodes| - j
      {
        assert Joined(nodes, j);
        entp := entp.next;
        j := j + 1;
        if entp == head {
          return null, j;
        }
      }
      found := entp;
    }

    /** remqueue, for an entry that is not the only one; `head` is already past it. */
    method Unlink(n: Node, ghost j: nat)
      requires Round(nodes) && 1 < |nodes| && j < |nodes| && nodes[j] == n && head == nodes[if j == 0 then 1 else 0]
      modifies this`nodes, nodes
      ensures Valid() && nodes == RemoveAt(old(nodes), j)
    {
      assert Joined(nodes, j);
      n.next.prev := n.prev;
      n.prev.next := n.next;
      nodes := RemoveAt(nodes, j);
      RemovedDistinct(old(nodes), j);
      forall i | 0 <= i < |nodes| ensures Joined(nodes, i) {
        RemovedNeighbours(old(nodes), j, i);
        assert old(Joined(nodes, Shift(i, j)));
      }
    }

    /** hash_ent_remove; `refs` is the header's ref_count. */
    method Remove(n: Node, ghost j: nat, refs: int, used: bool, dead: DeadList) returns (left: int, freed: bool)
      requires Valid() && dead.Valid() && Apart(nodes, dead.nodes) && j < |nodes| && nodes[j] == n
      modifies this, nodes, dead
      ensures Valid() && dead.Valid() && Apart(nodes, dead.nodes)
      ensures nodes == RemoveAt(old(nodes), j) && dead.nodes == [n] + old(dead.nodes)
      ensures left == refs - 1 && (freed <==> j == 0 && |old(nodes)| == 1 && refs == 1 && !used)
    {
      left := refs - 1;
      assert Joined(nodes, j);
      if head == n {
        if n.next == n {
          head, nodes := null, [];
          dead.Push(n);
          return left, left == 0 && !used;
        }
        head := n.next;
      }
      Unlink(n, j);
      forall i | 0 <= i < |dead.nodes| ensures Chained(dead.nodes, i) {
        assert old(Chained(dead.nodes, i)) && dead.nodes[i] !in old(nodes);
      }
      dead.Push(n);
      freed := false;
    }

    /**
      * One turn of the walk for dead entries.  Its test looks at the pointers alone: it goes on unless the
      * ring is empty or the next entry is the one that the bucket now points to.
      */
    method ScanTurn(entp: Node, ghost j: nat, gone: set<nat>, refs: int, used: bool, dead: DeadList)
      returns (next: Node, left: int, freed: bool, more: bool)
      requires Valid() && dead.Valid() && Apart(nodes, dead.nodes) && j < |nodes| && nodes[j] == entp
      modifies this, nodes, dead
      ensures Valid() && dead.Valid() && Apart(nodes, dead.nodes)
      ensures var n := |old(nodes)|;
        if entp.entry.port in gone then
          && nodes == RemoveAt(old(nodes), j) && dead.nodes == [entp] + old(dead.nodes) && left == refs - 1
          && (freed <==> n == 1 && left == 0 && !used)
          && (!freed ==> (more <==> j != 0 && j + 1 != n)) && (!freed && more ==> next == nodes[j])
        else
          && nodes == old(nodes) && dead.nodes == old(dead.nodes) && left == refs && !freed
          && (more <==> j + 1 != n) && (more ==> next == nodes[j + 1])
    {
      assert Joined(nodes, j);
      next := entp.next;
      left, freed, more := refs, false, false;
      if entp.entry.port in gone {
        left, freed := Remove(entp, j, refs, used, dead);
        if freed {
          return;
        }
      }
      more := head != null && next != head;
    }

    /** The walk of the ring that was `was` is at place `j`, or at its end; it is to leave `target`. */
    ghost predicate Partway(was: seq<Node>, dying: seq<Node>, target: seq<Entry>, dead: DeadList, gone: set<nat>,
                            refs: int, used: bool, j: nat, entp: Node, left: int, freed: bool, more: bool)
      reads this, nodes, dead, dead.nodes
    {
      && Valid() && dead.Valid() && Apart(nodes, dead.nodes) && Moved(was, dying, nodes, dead.nodes)
      && left == refs - |was| + |nodes| && (freed <==> nodes == [] && left == 0 && !used) && (freed ==> !more)
      && if more then j < |nodes| && nodes[j] == entp && Finish(EntriesOf(nodes), j, gone) == target
         else EntriesOf(nodes) == target
    }

    method ScanStep(entp: Node, ghost j: nat, gone: set<nat>, refs: int, used: bool, dead: DeadList,
                    ghost was: seq<Node>, ghost dying: seq<Node>, ghost target: seq<Entry>, ghost refs0: int)
      returns (next: Node, left: int, freed: bool, more: bool, ghost j': nat)
      requires Partway(was, dying, target, dead, gone, refs0, used, j, entp, refs, false, true)
      modifies this, was, dead
      ensures Partway(was, dying, target, dead, gone, refs0, used, j', next, left, freed, more)
      ensures more ==> |nodes| - j' < old(|nodes|) - j
    {
      RemovedEntries(nodes, j);
      RemovedCounts(nodes, j, dead.nodes);
      j' := if entp.entry.port in gone then j else j + 1;
      MovedInside(was, dying, nodes, dead.nodes);
      next, left, freed, more := ScanTurn(entp, j, gone, refs, used, dead);
      more := more && !freed;
    }

    method Walk(first: Node, gone: set<nat>, refs: int, used: bool, dead: DeadList, ghost target: seq<Entry>)
      returns (left: int, freed: bool, ghost j: nat, ghost last: Node)
      requires Partway(nodes, dead.nodes, target, dead, gone, refs, used, 0, first, refs, false, true)
      modifies this, nodes, dead
      ensures Partway(old(nodes), old(dead.nodes), target, dead, gone, refs, used, j, last, left, freed, false)
    {
      j := 0;
      var entp: Node, more := first, true;
      left, freed := refs, false;
      while more
        invariant Partway(old(nodes), old(dead.nodes), target, dead, gone, refs, used, j, entp, left, freed, more)
        decreases more, |nodes| - j
      {
        entp, left, freed, more, j :=
          ScanStep(entp, j, gone, left, used, dead, old(nodes), old(dead.nodes), target, refs);
      }
      last := entp;
    }

    /** The walk round the ring, which takes out the sessions whose port is gone. */
    method Scan(gone: set<nat>, refs: int, used: bool, dead: DeadList) returns (left: int, freed: bool)
      requires Valid() && dead.Valid() && Apart(nodes, dead.nodes) && head != null
      modifies this, nodes, dead
      ensures Valid() && dead.Valid() && Apart(nodes, dead.nodes)
      ensures EntriesOf(nodes) == Scanned(old(EntriesOf(nodes)), gone)
      ensures Moved(old(nodes), old(dead.nodes), nodes, dead.nodes)
      ensures left == refs - |old(nodes)| + |nodes| && (freed <==> nodes == [] && left == 0 && !used)
    {
      ghost var j, last;
      FinishScans(EntriesOf(nodes), gone);
      left, freed, j, last := Walk(head, gone, refs, used, dead, Scanned(EntriesOf(nodes), gone));
    }
  }

  // ---------------------------------------------------------------- the whole table

  function TableOf(contents: seq<seq<Node>>): (r: seq<seq<Entry>>)
    ensures |r| == |contents| && forall i :: 0 <= i < |r| ==> r[i] == EntriesOf(contents[i])
  {
    seq(|contents|, i requires 0 <= i < |contents| => EntriesOf(contents[i]))
  }

  ghost function AllNodes(contents: seq<seq<Node>>): set<Node> {
    set i, n | 0 <= i < |contents| && n in contents[i] :: n
  }

  lemma InTable(contents: seq<seq<Node>>, i: nat)
    requires i < |contents|
    ensures forall n :: n in contents[i] ==> n in AllNodes(contents)
  {}

  ghost predicate HashedTo(nodes: seq<Node>, i: nat) { forall n :: n in nodes ==> Hash(n.entry.keys) == i }

  ghost predicate Hashed(contents: seq<seq<Node>>) { forall i :: 0 <= i < |contents| ==> HashedTo(contents[i], i) }

  /** An entry can be in the ring of its hash value only, so the rings have no entry in common. */
  lemma RingsApart(contents: seq<seq<Node>>, i: nat)
    requires Hashed(contents) && i < |contents|
    ensures forall k :: 0 <= k < |contents| && k != i ==> Apart(contents[k], contents[i])
  {
    forall k | 0 <= k < |contents| && k != i ensures Apart(contents[k], contents[i]) {
      assert HashedTo(contents[k], k) && HashedTo(contents[i], i);
    }
  }

  ghost predicate CellOk(cell: Bucket, nodes: seq<Node>)
    reads cell, nodes
  {
    cell.nodes == nodes && cell.Valid()
  }

  ghost predicate CellsOk(cells: seq<Bucket>, contents: seq<seq<Node>>)
    reads cells, AllNodes(contents)
  {
    && |cells| == |contents| && Distinct(cells) && Hashed(contents)
    && forall i :: 0 <= i < |cells| ==> (InTable(contents, i); CellOk(cells[i], contents[i]))
  }

  lemma Elsewhere(a: seq<Node>, b: seq<Node>)
    requires Apart(a, b)
    ensures forall i :: 0 <= i < |a| ==> a[i] !in b
  {}

  method AppendAt(cells: seq<Bucket>, ghost contents: seq<seq<Node>>, h: nat, n: Node)
    requires CellsOk(cells, contents) && h < |cells| && n !in AllNodes(contents) && Hash(n.entry.keys) == h
    modifies cells[h], contents[h], n
    ensures CellsOk(cells, contents[h := contents[h] + [n]])
  {
    InTable(contents, h);
    RingsApart(contents, h);
    assert CellOk(cells[h], contents[h]);
    cells[h].Append(n);
    ghost var r := contents[h := contents[h] + [n]];
    forall k | 0 <= k < |cells| ensures CellOk(cells[k], r[k]) {
      InTable(contents, k);
      assert old(CellOk(cells[k], contents[k]));
      if k != h {
        Elsewhere(contents[k], contents[h]);
        assert forall i :: 0 <= i < |contents[k]| ==> contents[k][i] in contents[k];
      }
    }
  }

  /** No entry of the table is on the dead list. */
  ghost predicate Living(contents: seq<seq<Node>>, dead: seq<Node>) {
    forall i :: 0 <= i < |contents| ==> Apart(contents[i], dead)
  }

  /** Entries that die in one ring are in no other. */
  lemma LivingElsewhere(contents: seq<seq<Node>>, i: nat, dead: seq<Node>, nodes: seq<Node>, dead': seq<Node>)
    requires Hashed(contents) && i < |contents| && Living(contents, dead)
    requires Apart(nodes, dead') && Moved(contents[i], dead, nodes, dead')
    ensures Living(contents[i := nodes], dead') && Hashed(contents[i := nodes])
  {
    RingsApart(contents, i);
    forall k | 0 <= k < |contents| && k != i ensures Apart(contents[k], dead') {
      forall n | n in contents[k] ensures n !in dead' {
        if n in dead' {
          MovedFrom(contents[i], dead, nodes, dead', n);
        }
      }
    }
  }

  method RemoveFrom(cells: seq<Bucket>, ghost contents: seq<seq<Node>>, h: nat, n: Node, ghost j: nat, refs: int,
                    used: bool, dead: DeadList)
    returns (left: int, freed: bool)
    requires CellsOk(cells, contents) && dead.Valid() && Living(contents, dead.nodes)
    requires h < |cells| && j < |contents[h]| && contents[h][j] == n
    modifies cells[h], contents[h], dead
    ensures var r := contents[h := RemoveAt(contents[h], j)];
      CellsOk(cells, r) && dead.Valid() && Living(r, dead.nodes) && dead.nodes == [n] + old(dead.nodes)
    ensures left == refs - 1 && (freed <==> j == 0 && |contents[h]| == 1 && refs == 1 && !used)
  {
    InTable(contents, h);
    RingsApart(contents, h);
    assert CellOk(cells[h], contents[h]);
    left, freed := cells[h].Remove(n, j, refs, used, dead);
    RemovedCounts(contents[h], j, old(dead.nodes));
    LivingElsewhere(contents, h, old(dead.nodes), RemoveAt(contents[h], j), dead.nodes);
    ghost var r := contents[h := RemoveAt(contents[h], j)];
    forall k | 0 <= k < |cells| ensures CellOk(cells[k], r[k]) {
      InTable(contents, k);
      assert old(CellOk(cells[k], contents[k]));
      if k != h {
        Elsewhere(contents[k], contents[h]);
      }
    }
  }

  method ScanAt(cells: seq<Bucket>, ghost contents: seq<seq<Node>>, h: nat, gone: set<nat>, refs: int, used: bool,
                dead: DeadList)
    returns (left: int, freed: bool, ghost nodes: seq<Node>)
    requires CellsOk(cells, contents) && dead.Valid() && Living(contents, dead.nodes)
    requires h < |cells| && cells[h].head != null
    modifies cells[h], contents[h], dead
    ensures var r := contents[h := nodes]; CellsOk(cells, r) && dead.Valid() && Living(r, dead.nodes)
    ensures EntriesOf(nodes) == Scanned(EntriesOf(contents[h]), gone)
    ensures Moved(contents[h], old(dead.nodes), nodes, dead.nodes)
    ensures left == refs - |contents[h]| + |nodes| && (freed <==> nodes == [] && left == 0 && !used)
  {
    InTable(contents, h);
    RingsApart(contents, h);
    assert CellOk(cells[h], contents[h]);
    left, freed := cells[h].Scan(gone, refs, used, dead);
    nodes := cells[h].nodes;
    LivingElsewhere(contents, h, old(dead.nodes), nodes, dead.nodes);
    ghost var r := contents[h := nodes];
    forall k | 0 <= k < |cells| ensures CellOk(cells[k], r[k]) {
      InTable(contents, k);
      assert old(CellOk(cells[k], contents[k]));
      if k != h {
        Elsewhere(contents[k], contents[h]);
      }
    }
  }

  lemma TableUpdate(contents: seq<seq<Node>>, i: nat, nodes: seq<Node>)
    requires i < |contents|
    ensures TableOf(contents[i := nodes]) == TableOf(contents)[i := EntriesOf(nodes)]
    ensures Total(TableOf(contents[i := nodes])) == Total(TableOf(contents)) - |contents[i]| + |nodes|
  {
    TotalUpdate(TableOf(contents), i, EntriesOf(nodes));
  }

  /** The first `n` buckets were swept. */
  ghost predicate SweptTo(t0: seq<seq<Entry>>, t: seq<seq<Entry>>, gone: set<nat>, n: nat) {
    |t| == |t0| && forall i :: 0 <= i < |t| ==> t[i] == if i < n then Scanned(t0[i], gone) else t0[i]
  }

  /** A header with sessions has some left, unless it is about to be used; else it would have been freed. */
  ghost predicate Occupied(t0: seq<seq<Entry>>, used: bool, refs: int) { !used && Total(t0) > 0 ==> refs > 0 }

  lemma SweptToEmpty(t0: seq<seq<Entry>>, t: seq<seq<Entry>>, gone: set<nat>, n: nat)
    requires SweptTo(t0, t, gone, n) && Total(t0) == 0 && n < |t|
    ensures t[n] == []
  {
    TotalAtLeast(t0, n);
  }

  /** When all buckets were swept, or nothing is left, the table is what `SweptTable` says. */
  lemma SweptWhole(t0: seq<seq<Entry>>, t: seq<seq<Entry>>, gone: set<nat>, n: nat)
    requires SweptTo(t0, t, gone, n) && (n >= |t| || Total(t) == 0)
    ensures t == SweptTable(t0, gone)
  {
    forall i | 0 <= i < |t| ensures t[i] == SweptTable(t0, gone)[i] {
      TotalAtLeast(t, i);
    }
  }

  lemma FewerNodes(contents: seq<seq<Node>>, i: nat, nodes: seq<Node>)
    requires i < |contents| && forall n :: n in nodes ==> n in contents[i]
    ensures AllNodes(contents[i := nodes]) <= AllNodes(contents)
  {}

  lemma AppendedTable(contents: seq<seq<Node>>, i: nat, n: Node)
    requires i < |contents|
    ensures var r := contents[i := contents[i] + [n]];
      && TableOf(r) == TableOf(contents)[i := TableOf(contents)[i] + [n.entry]]
      && AllNodes(r) == AllNodes(contents) + {n}
      && Total(TableOf(r)) == Total(TableOf(contents)) + 1
  {
    var r := contents[i := contents[i] + [n]];
    TableUpdate(contents, i, contents[i] + [n]);
    assert EntriesOf(contents[i] + [n]) == EntriesOf(contents[i]) + [n.entry];
    forall x | x in AllNodes(contents) + {n} ensures x in AllNodes(r) {
      if x == n {
        assert n in r[i];
      } else {
        var k :| 0 <= k < |contents| && x in contents[k];
        assert x in r[k];
      }
    }
  }

  lemma RemovedTable(contents: seq<seq<Node>>, i: nat, j: nat)
    requires i < |contents| && j < |contents[i]|
    ensures var r := contents[i := RemoveAt(contents[i], j)];
      && TableOf(r) == TableOf(contents)[i := RemoveAt(TableOf(contents)[i], j)]
      && Total(TableOf(r)) == Total(TableOf(contents)) - 1 && AllNodes(r) <= AllNodes(contents)
  {
    RemovedCounts(contents[i], j, []);
    FewerNodes(contents, i, RemoveAt(contents[i], j));
    TableUpdate(contents, i, RemoveAt(contents[i], j));
    RemovedEntries(contents[i], j);
  }

  /** struct net_hash_header. */
  class HashHeader {
    var keyCount: nat
    var refCount: int
    const filter: seq<Insn>
    const priority: int
    const cells: seq<Bucket>
    ghost var contents: seq<seq<Node>>

    ghost predicate Valid()
      reads this, cells, AllNodes(contents)
    {
      |cells| == HASH_SIZE && CellsOk(cells, contents) && refCount == Total(TableOf(contents))
    }

    /** The header as the specification sees it. */
    ghost function Abs(): Header
      reads this
    {
      Header(keyCount, refCount, TableOf(contents), filter, priority)
    }

    /** An empty table. */
    constructor (keys: nat, filter: seq<Insn>, priority: int, cells: seq<Bucket>)
      requires |cells| == HASH_SIZE && Distinct(cells) && forall i :: 0 <= i < |cells| ==> CellOk(cells[i], [])
      ensures Valid() && this.cells == cells && Abs() == Header(keys, 0, seq(HASH_SIZE, _ => []), filter, priority)
    {
      this.keyCount, this.refCount, this.filter, this.priority, this.cells := keys, 0, filter, priority, cells;
      contents := seq(HASH_SIZE, _ => []);
      new;
      TotalZero(TableOf(contents));
      assert TableOf(contents) == seq(HASH_SIZE, _ => []);
    }

    /** bpf_match: the session with these keys. */
    method Find(keys: seq<u32>) returns (found: Node?, ghost j: nat)
      requires Valid()
      ensures Match(Abs(), keys) == if found == null then None else Some(j)
      ensures found != null ==> j < |contents[Hash(keys)]| && contents[Hash(keys)][j] == found
    {
      if |keys| != keyCount {
        return null, 0;
      }
      var h := HashKeys(keys);
      InTable(contents, h);
      assert CellOk(cells[h], contents[h]);
      found, j := cells[h].Find(keys);
    }

    /** New values for the fields; the rings and the dead list are as they were. */
    method Store(ghost rings: seq<seq<Node>>, refs: int, keys: nat, ghost dead: DeadList?)
      requires CellsOk(cells, rings) && (dead != null ==> dead.Valid())
      modifies this
      ensures contents == rings && refCount == refs && keyCount == keys && CellsOk(cells, rings)
      ensures dead != null ==> dead.Valid() && dead.nodes == old(dead.nodes)
    {
      contents, refCount, keyCount := rings, refs, keys;
    }

    /** An entry goes to the end of the ring for its keys. */
    method Enter(n: Node)
      requires Valid() && n !in AllNodes(contents)
      modifies this, cells, AllNodes(contents), n
      ensures Valid() && Abs() == Inserted(old(Abs()), n.entry) && AllNodes(contents) == old(AllNodes(contents)) + {n}
    {
      var h := HashKeys(n.entry.keys);
      InTable(contents, h);
      AppendedTable(contents, h, n);
      AppendAt(cells, contents, h, n);
      Store(contents[h := contents[h] + [n]], refCount + 1, keyCount, null);
    }

    /** A new session. */
    method Insert(e: Entry)
      requires Valid()
      modifies this, cells, AllNodes(contents)
      ensures Valid() && Abs() == Inserted(old(Abs()), e) && fresh(AllNodes(contents) - old(AllNodes(contents)))
    {
      var n := new Node(e);
      Enter(n);
    }

    /** hash_ent_remove, for the entry at place `j` of ring `i`. */
    method Remove(i: nat, n: Node, ghost j: nat, used: bool, dead: DeadList) returns (freed: bool)
      requires Valid() && i < HASH_SIZE && j < |contents[i]| && contents[i][j] == n
      requires dead.Valid() && Living(contents, dead.nodes)
      modifies this, cells, AllNodes(contents), dead
      ensures Valid() && dead.Valid() && Living(contents, dead.nodes) && dead.nodes == [n] + old(dead.nodes)
      ensures Abs() == Removed(old(Abs()), i, j, used) && freed == Freed(old(Abs()), i, j, used)
      ensures AllNodes(contents) <= old(AllNodes(contents))
    {
      InTable(contents, i);
      RemovedTable(contents, i, j);
      var left;
      left, freed := RemoveFrom(cells, contents, i, n, j, refCount, used, dead);
      Store(contents[i := RemoveAt(contents[i], j)], left, if freed then 0 else keyCount, dead);
    }

    /** The collection in one ring. */
    method SweepRing(i: nat, gone: set<nat>, used: bool, dead: DeadList) returns (freed: bool)
      requires Valid() && dead.Valid() && Living(contents, dead.nodes) && i < HASH_SIZE && cells[i].head != null
      modifies this, cells, AllNodes(contents), dead
      ensures Valid() && dead.Valid() && Living(contents, dead.nodes)
      ensures AllNodes(contents) <= old(AllNodes(contents))
      ensures TableOf(contents) == TableOf(old(contents))[i := Scanned(TableOf(old(contents))[i], gone)]
      ensures (freed <==> contents[i] == [] && refCount == 0 && !used) && keyCount == if freed then 0 else old(keyCount)
    {
      InTable(contents, i);
      var left;
      ghost var nodes;
      left, freed, nodes := ScanAt(cells, contents, i, gone, refCount, used, dead);
      TableUpdate(contents, i, nodes);
      FewerNodes(contents, i, nodes);
      Store(contents[i := nodes], left, if freed then 0 else keyCount, dead);
    }

    method SweepTurn(i: nat, gone: set<nat>, used: bool, dead: DeadList, ghost t0: seq<seq<Entry>>)
      returns (freed: bool)
      requires Valid() && dead.Valid() && Living(contents, dead.nodes) && i < HASH_SIZE
        && SweptTo(t0, TableOf(contents), gone, i)
      requires Occupied(t0, used, refCount)
      modifies this, cells, AllNodes(contents), dead
      ensures Valid() && dead.Valid() && Living(contents, dead.nodes) && AllNodes(contents) <= old(AllNodes(contents))
      ensures SweptTo(t0, TableOf(contents), gone, i + 1) && keyCount == if freed then 0 else old(keyCount)
      ensures if freed then refCount == 0 && !used && Total(t0) > 0 else Occupied(t0, used, refCount)
    {
      InTable(contents, i);
      assert CellOk(cells[i], contents[i]);
      TotalAtLeast(TableOf(contents), i);
      if cells[i].head == null {
        return false;
      }
      ghost var some := Total(t0) > 0;
      if !some {
        SweptToEmpty(t0, TableOf(contents), gone, i);
        assert false;
      }
      freed := SweepRing(i, gone, used, dead);
      TotalAtLeast(TableOf(contents), i);
    }

    /** The collection of dead sessions in the whole table. */
    method Sweep(gone: set<nat>, used: bool, dead: DeadList) returns (freed: bool)
      requires Valid() && dead.Valid() && Living(contents, dead.nodes) && Settled(Abs(), used)
      modifies this, cells, AllNodes(contents), dead
      ensures Valid() && dead.Valid() && Living(contents, dead.nodes)
      ensures Abs() == Swept(old(Abs()), gone, used) && freed == (keyCount != old(keyCount))
      ensures AllNodes(contents) <= old(AllNodes(contents))
    {
      ghost var t0 := TableOf(contents);
      freed := false;
      var i := 0;
      while i < HASH_SIZE
        invariant 0 <= i <= HASH_SIZE && Valid() && dead.Valid() && Living(contents, dead.nodes) && !freed
        invariant AllNodes(contents) <= old(AllNodes(contents)) && keyCount == old(keyCount)
        invariant SweptTo(t0, TableOf(contents), gone, i) && Occupied(t0, used, refCount)
      {
        freed := SweepTurn(i, gone, used, dead, t0);
        i := i + 1;
        if freed {
          break;
        }
      }
      SweptWhole(t0, TableOf(contents), gone, i);
    }
  }
}
