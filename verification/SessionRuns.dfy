/** Any sequence of operations on the rings of one header (device/net_io.c). */
module SessionRuns {
  import opened Options
  import opened Bpf
  import opened SessionTable
  import opened SessionInstall
  import opened SessionRing

  /**
    * What happens to a header in use: net_set_filter enters a session or collects dead ones, and net_filter
    * removes the session that a packet's keys find, when its port turns out to be gone.
    */
  datatype Operation = Enter(e: Entry) | Lose(keys: seq<u32>) | Collect(gone: set<nat>)

  /** A session joins a header in use that has its program. */
  predicate Joins(h: Header, e: Entry) { h.keyCount > 0 && Equal(h.filter, e.program) }

  function Did(h: Header, op: Operation): Header
    requires |h.table| == HASH_SIZE
  {
    match op
    case Enter(e) => if Joins(h, e) then Inserted(h, e) else h
    case Lose(keys) =>
      (match Match(h, keys)
       case Some(j) => Removed(h, Hash(keys), j, false)
       case None => h)
    case Collect(gone) => Swept(h, gone, false)
  }

  ghost predicate Proper(op: Operation) { op.Enter? ==> SessionOk(op.e) }

  lemma DidAtRest(h: Header, op: Operation)
    requires AtRest(h) && Proper(op)
    ensures AtRest(Did(h, op))
  {
    match op
    case Enter(e) =>
      if Joins(h, e) {
        InsertedAtRest(h, e);
      }
    case Lose(keys) =>
      if Match(h, keys).Some? {
        RemovedSettled(h, Hash(keys), Match(h, keys).value, false);
      }
    case Collect(gone) => SweptSettled(h, gone, false);
  }

  /** One operation after the other. */
  ghost function DidAll(h: Header, ops: seq<Operation>): Header
    requires AtRest(h) && forall op :: op in ops ==> Proper(op)
    decreases |ops|
  {
    if ops == [] then h
    else
      DidAtRest(h, ops[0]);
      DidAll(Did(h, ops[0]), ops[1..])
  }

  /** In every state a header comes to, its count is right, it is free exactly if empty, and a search misses nothing. */
  lemma {:induction false} DidAllAtRest(h: Header, ops: seq<Operation>, keys: seq<u32>)
    requires AtRest(h) && forall op :: op in ops ==> Proper(op)
    ensures var r := DidAll(h, ops);
      && r.refCount == Total(r.table) && (r.keyCount == 0 <==> Total(r.table) == 0)
      && AtRest(r) && (Match(r, keys).Some? <==> HasKeys(r, keys))
    decreases |ops|
  {
    if ops == [] {
      MatchSearchesAll(h, keys);
    } else {
      DidAtRest(h, ops[0]);
      DidAllAtRest(Did(h, ops[0]), ops[1..], keys);
    }
  }

  ghost predicate Ready(h: HashHeader, dead: DeadList)
    reads h, h.cells, AllNodes(h.contents), dead, dead.nodes
  {
    h.Valid() && dead.Valid() && Living(h.contents, dead.nodes)
  }

  method Lose(h: HashHeader, keys: seq<u32>, dead: DeadList)
    requires Ready(h, dead)
    modifies h, h.cells, AllNodes(h.contents), dead
    ensures Ready(h, dead) && h.Abs() == Did(old(h.Abs()), Operation.Lose(keys))
    ensures AllNodes(h.contents) <= old(AllNodes(h.contents))
  {
    var i := HashKeys(keys);
    var found;
    ghost var j;
    found, j := h.Find(keys);
    if found != null {
      var freed := h.Remove(i, found, j, false, dead);
    }
  }

  method Operate(h: HashHeader, op: Operation, dead: DeadList)
    requires Ready(h, dead) && AtRest(h.Abs()) && Proper(op)
    modifies h, h.cells, AllNodes(h.contents), dead
    ensures Ready(h, dead) && h.Abs() == Did(old(h.Abs()), op)
    ensures fresh(AllNodes(h.contents) - old(AllNodes(h.contents)))
  {
    match op {
      case Enter(e) =>
        if h.keyCount > 0 && Equal(h.filter, e.program) {
          Join(h, e, dead);
        }
      case Lose(keys) =>
        Lose(h, keys, dead);
      case Collect(gone) =>
        var freed := h.Sweep(gone, false, dead);
    }
  }

  method Join(h: HashHeader, e: Entry, dead: DeadList)
    requires Ready(h, dead)
    modifies h, h.cells, AllNodes(h.contents), dead
    ensures Ready(h, dead) && h.Abs() == Inserted(old(h.Abs()), e)
    ensures fresh(AllNodes(h.contents) - old(AllNodes(h.contents)))
  {
    h.Insert(e);
  }

  lemma DidFrom(h: Header, ops: seq<Operation>, i: nat)
    requires i < |ops| && AtRest(h) && forall op :: op in ops ==> Proper(op)
    ensures AtRest(Did(h, ops[i])) && DidAll(h, ops[i..]) == DidAll(Did(h, ops[i]), ops[i + 1..])
  {
    DidAtRest(h, ops[i]);
    assert ops[i..][1..] == ops[i + 1..];
  }

  method OperateAt(h: HashHeader, ops: seq<Operation>, i: nat, dead: DeadList)
    requires Ready(h, dead) && AtRest(h.Abs()) && i < |ops| && forall op :: op in ops ==> Proper(op)
    modifies h, h.cells, AllNodes(h.contents), dead
    ensures Ready(h, dead) && AtRest(h.Abs()) && DidAll(h.Abs(), ops[i + 1..]) == DidAll(old(h.Abs()), ops[i..])
    ensures fresh(AllNodes(h.contents) - old(AllNodes(h.contents)))
  {
    DidFrom(h.Abs(), ops, i);
    Operate(h, ops[i], dead);
  }

  /**
    * Any sequence of operations: the rings of the header are well formed after each of them, no entry is both in
    * a ring and on the dead list, and the header is what the operations make of it one after the other.
    */
  method OperateAll(h: HashHeader, ops: seq<Operation>, dead: DeadList)
    requires Ready(h, dead) && AtRest(h.Abs()) && forall op :: op in ops ==> Proper(op)
    modifies h, h.cells, AllNodes(h.contents), dead
    ensures Ready(h, dead) && h.Abs() == DidAll(old(h.Abs()), ops)
  {
    var i := 0;
    assert ops[0..] == ops;
    while i < |ops|
      invariant 0 <= i <= |ops| && Ready(h, dead) && AtRest(h.Abs())
      invariant fresh(AllNodes(h.contents) - old(AllNodes(h.contents)))
      invariant DidAll(h.Abs(), ops[i..]) == DidAll(old(h.Abs()), ops)
    {
      OperateAt(h, ops, i, dead);
      i := i + 1;
    }
  }
}
