/**
  * What a kernel message holds: ipc_kmsg_copyin_body acquires port rights and memory,
  * ipc_kmsg_clean_body, ipc_kmsg_clean_partial and ipc_kmsg_clean give them back.
  *
  * The body of a message is an array of 8-byte words; a place in it is counted in words, its
  * end in bytes.  The ledger `held` has one entry for every right and every block held.
  */
module KmsgLedger {
  import opened PortTypes

  const NAME_BITS: nat := 32  // 8 * sizeof(mach_port_name_t)
  const PORT_BITS: nat := 64  // 8 * sizeof(mach_port_t)

  /** A 64-bit word of a message, by the fields it has when it is read as a type descriptor. */
  datatype Word = Word(name: nat, size: nat, unused: nat, inline: bool, longform: bool, deallocate: bool, number: nat)

  const ZERO: Word := Word(0, 0, 0, false, false, false, 0)                            // IO_NULL
  const ONES: Word := Word(0xff, 0xffff, 0x1f, true, true, true, 0xffff_ffff)          // IO_DEAD

  /** Read as a port name, a word is its low half. */
  function LowHalf(w: Word): Word { w.(number := 0) }

  datatype Resource =
    Right(io: Word, name: nat) | Memory(address: Word, length: nat) | Copy(copy: Word) | Request(request: nat)

  datatype Return = Success | TooSmall | InvalidType | InvalidMemory | InvalidRight

  /** ipc_object_copyin_type: the right a receiver sees. */
  function ReceivedName(name: nat): (r: nat)
    requires IsPort(name)
    ensures IsPort(r)
  {
    if name == 18 || name == 21 then 18 else if name == MOVE_RECEIVE then MOVE_RECEIVE else 17
  }

  predicate IoValid(io: Word) { io != ZERO && io != ONES }

  /** MACH_PORT_NAME_VALID. */
  predicate NameValid(name: Word) { LowHalf(name) != LowHalf(ZERO) && LowHalf(name) != LowHalf(ONES) }

  /** The bits of `number` things of `size` bits each: their product (BitsProduct). */
  function Bits(number: nat, size: nat): nat {
    if number == 0 then 0 else size + Bits(number - 1, size)
  }

  lemma {:induction false} BitsProduct(number: nat, size: nat)
    ensures Bits(number, size) == number * size
  {
    if number > 0 {
      BitsProduct(number - 1, size);
    }
  }

  /** The bytes of data, and the words they take up. */
  function Length(t: Word): nat { (Bits(t.number, t.size) + 7) / 8 }

  function Words(bytes: nat): nat { (bytes + 7) / 8 }

  function Next(t: Word, p: nat): nat { p + 1 + if t.inline then Words(Length(t)) else 1 }

  lemma PortLength(t: Word)
    ensures t.size == PORT_BITS ==> Length(t) == 8 * t.number && Words(Length(t)) == t.number
    ensures t.size == NAME_BITS ==> Length(t) == 4 * t.number
  {
    BitsProduct(t.number, t.size);
  }

  // ---------------------------------------------------------------- what a body holds

  /** The rights among `objects`. */
  ghost function Rights(objects: seq<Word>, name: nat): multiset<Resource> {
    if objects == [] then multiset{}
    else Rights(objects[..|objects| - 1], name) + OneRight(objects[|objects| - 1], name)
  }

  ghost function OneRight(io: Word, name: nat): multiset<Resource> {
    if IoValid(io) then multiset{Right(io, name)} else multiset{}
  }

  /** The ports of an inline item: not more than fit before the end. */
  function Fitting(t: Word, p: nat, end: nat): nat
    requires 8 * (p + 1) <= end
  {
    if 8 * (p + 1 + t.number) <= end then t.number else end / 8 - (p + 1)
  }

  type Heap = map<Word, seq<Word>>

  /** `data` is a kernel array with a word for each of the ports. */
  ghost predicate PortArray(t: Word, data: Word, heap: Heap) {
    data in heap && |heap[data]| == t.number && t.size == PORT_BITS
  }

  /** The item at `p` can be read, and an array of ports it points to is there. */
  ghost predicate ItemSound(m: seq<Word>, heap: Heap, p: nat, end: nat) {
    && 8 * (p + 1) <= end && p < |m|
    && var t := m[p];
       if t.inline then IsPort(t.name) ==> p + 1 + Fitting(t, p, end) <= |m|
       else
         && p + 1 < |m|
         && (IsPort(t.name) && t.number > 0 ==> PortArray(t, m[p + 1], heap))
  }

  ghost function OutOfLine(t: Word, data: Word, heap: Heap): multiset<Resource>
    requires IsPort(t.name) && t.number > 0 ==> PortArray(t, data, heap)
  {
    if IsPort(t.name) then
      if t.number == 0 then multiset{} else Rights(heap[data], t.name) + multiset{Memory(data, 8 * t.number)}
    else if Length(t) == 0 then multiset{}
    else multiset{Copy(data)}
  }

  ghost function Inline(m: seq<Word>, t: Word, p: nat, end: nat): multiset<Resource>
    requires IsPort(t.name) ==> 8 * (p + 1) <= end && p + 1 + Fitting(t, p, end) <= |m|
  {
    if IsPort(t.name) then Rights(m[p + 1..p + 1 + Fitting(t, p, end)], t.name) else multiset{}
  }

  ghost function ItemHolds(m: seq<Word>, heap: Heap, p: nat, end: nat): multiset<Resource>
    requires ItemSound(m, heap, p, end)
  {
    var t := m[p];
    if t.inline then Inline(m, t, p, end) else OutOfLine(t, m[p + 1], heap)
  }

  ghost predicate Sound(m: seq<Word>, heap: Heap, p: nat, end: nat)
    decreases end - 8 * p
  {
    8 * p < end ==> ItemSound(m, heap, p, end) && Sound(m, heap, Next(m[p], p), end)
  }

  ghost function Holds(m: seq<Word>, heap: Heap, p: nat, end: nat): multiset<Resource>
    requires Sound(m, heap, p, end)
    decreases end - 8 * p
  {
    if 8 * p >= end then multiset{}
    else ItemHolds(m, heap, p, end) + Holds(m, heap, Next(m[p], p), end)
  }

  /** Every block in the ledger is allocated, has the size it was given, and is there once. */
  ghost predicate Consistent(held: multiset<Resource>, heap: Heap) {
    forall a, l :: Memory(a, l) in held ==> held[Memory(a, l)] == 1 && a in heap && l == 8 * |heap[a]|
  }

  /** Blocks were only freed. */
  ghost predicate SubHeap(heap': Heap, heap: Heap) {
    forall a :: a in heap' ==> a in heap && heap[a] == heap'[a]
  }

  /** Blocks freed or allocated elsewhere do not change what a body holds. */
  lemma {:induction false} SameHolds(m: seq<Word>, heap: Heap, heap': Heap, held: multiset<Resource>, p: nat, end: nat)
    requires Sound(m, heap, p, end) && Holds(m, heap, p, end) <= held && Consistent(held, heap')
    requires forall a :: a in heap && a in heap' ==> heap[a] == heap'[a]
    ensures Sound(m, heap', p, end) && Holds(m, heap', p, end) == Holds(m, heap, p, end)
    decreases end - 8 * p
  {
    if 8 * p < end {
      var t := m[p];
      var rest := Holds(m, heap, Next(t, p), end);
      var item := ItemHolds(m, heap, p, end);
      assert rest <= item + rest && item <= item + rest;
      SameHolds(m, heap, heap', held, Next(t, p), end);
      if !t.inline && IsPort(t.name) && t.number > 0 {
        assert Memory(m[p + 1], 8 * t.number) in item;
      }
    }
  }

  lemma Settle<T>(a: multiset<T>, a': multiset<T>, total: multiset<T>, start: multiset<T>, rest: multiset<T>,
                  rest': multiset<T>)
    requires a + total == start + rest && a' + rest == a + rest'
    ensures a' + total == start + rest'
  {
    forall x ensures (a' + total)[x] == (start + rest')[x] {
      assert (a + total)[x] == (start + rest)[x];
      assert (a' + rest)[x] == (a + rest')[x];
    }
  }

  lemma CleanStep(m: seq<Word>, heap: Heap, heap': Heap, held: multiset<Resource>, held': multiset<Resource>,
                  p: nat, end: nat)
    requires Sound(m, heap, p, end) && 8 * p < end && Holds(m, heap, p, end) <= held
    requires held' + ItemHolds(m, heap, p, end) == held
    requires Consistent(held', heap') && SubHeap(heap', heap)
    ensures var next := Next(m[p], p);
      && Sound(m, heap', next, end) && Holds(m, heap', next, end) <= held'
      && held' + Holds(m, heap, p, end) == held + Holds(m, heap', next, end)
  {
    var next := Next(m[p], p);
    var item, rest := ItemHolds(m, heap, p, end), Holds(m, heap, next, end);
    assert Holds(m, heap, p, end) == item + rest;
    assert rest <= held';
    SameHolds(m, heap, heap', held', next, end);
  }

  // ---------------------------------------------------------------- giving back

  /** Everything that holds rights and memory, as far as one message is concerned. */
  class Kernel {
    var held: multiset<Resource>
    var heap: Heap

    ghost predicate Valid()
      reads this
    {
      Consistent(held, heap)
    }

    /** ipc_object_destroy, vm_map_copy_discard or ipc_marequest_destroy: each thing only once. */
    method Release(r: Resource)
      requires Valid() && r in held && !r.Memory?
      modifies this`held
      ensures Valid() && held + multiset{r} == old(held)
    {
      held := held - multiset{r};
    }

    method DestroyRight(io: Word, name: nat)
      requires Valid() && OneRight(io, name) <= held
      modifies this`held
      ensures Valid() && held + OneRight(io, name) == old(held)
    {
      if IoValid(io) {
        assert Right(io, name) in OneRight(io, name);
        Release(Right(io, name));
      }
    }

    method Kfree(a: Word, length: nat)
      requires Valid() && Memory(a, length) in held
      modifies this
      ensures Valid() && held + multiset{Memory(a, length)} == old(held) && heap == old(heap) - {a}
    {
      held := held - multiset{Memory(a, length)};
      heap := heap - {a};
    }

    /** The loop over the port rights of an item. */
    method DestroyRights(objects: seq<Word>, name: nat)
      requires Valid() && Rights(objects, name) <= held
      modifies this`held
      ensures Valid() && held + Rights(objects, name) == old(held)
    {
      var i := 0;
      while i < |objects|
        invariant 0 <= i <= |objects| && Valid()
        invariant held + Rights(objects[..i], name) == old(held)
      {
        RightsStep(objects, i, name);
        if IoValid(objects[i]) {
          assert Right(objects[i], name) in held by {
            StillHeld(held, old(held), objects, i, name);
          }
          Release(Right(objects[i], name));
        }
        i := i + 1;
      }
      assert objects[..i] == objects;
    }

    /** What clean_body and clean_partial do for out-of-line memory. */
    method DestroyMemory(t: Word, data: Word)
      requires Valid()
      requires Length(t) > 0 ==> (if IsPort(t.name) then Memory(data, Length(t)) else Copy(data)) in held
      modifies this
      ensures Valid() && SubHeap(heap, old(heap))
      ensures old(held)
        == held + (if Length(t) == 0 then multiset{}
                   else if IsPort(t.name) then multiset{Memory(data, Length(t))} else multiset{Copy(data)})
    {
      if Length(t) > 0 {
        if IsPort(t.name) {
          Kfree(data, Length(t));
        } else {
          Release(Copy(data));
        }
      }
    }

    /** The loop that keeps the ports of an inline item inside the message. */
    method FitPorts(t: Word, p: nat, end: nat) returns (number: nat)
      requires 8 * (p + 1) <= end
      ensures number == Fitting(t, p, end)
    {
      number := t.number;
      while end < 8 * (p + 1 + number)
        invariant Fitting(t, p, end) <= number <= t.number
      {
        number := number - 1;
      }
    }

    method CleanOutOfLine(t: Word, data: Word)
      requires Valid() && (IsPort(t.name) && t.number > 0 ==> PortArray(t, data, heap))
      requires OutOfLine(t, data, heap) <= held
      modifies this
      ensures Valid() && SubHeap(heap, old(heap)) && held + OutOfLine(t, data, old(heap)) == old(held)
    {
      PortLength(t);
      ghost var all := OutOfLine(t, data, heap);
      if IsPort(t.name) && t.number > 0 {
        assert Rights(heap[data], t.name) <= all;
        DestroyRights(heap[data], t.name);
      }
      DestroyMemory(t, data);
    }

    method CleanInline(m: seq<Word>, t: Word, p: nat, end: nat)
      requires Valid() && (IsPort(t.name) ==> 8 * (p + 1) <= end && p + 1 + Fitting(t, p, end) <= |m|)
      requires Inline(m, t, p, end) <= held
      modifies this`held
      ensures Valid() && held + Inline(m, t, p, end) == old(held)
    {
      if IsPort(t.name) {
        var number := FitPorts(t, p, end);
        DestroyRights(m[p + 1..p + 1 + number], t.name);
      }
    }

    /** One turn of the loop of ipc_kmsg_clean_body. */
    method CleanItem(m: seq<Word>, p: nat, end: nat)
      requires Valid() && ItemSound(m, heap, p, end) && ItemHolds(m, heap, p, end) <= held
      modifies this
      ensures Valid() && SubHeap(heap, old(heap)) && held + ItemHolds(m, old(heap), p, end) == old(held)
    {
      var t := m[p];
      if !t.inline {
        CleanOutOfLine(t, m[p + 1]);
      } else {
        CleanInline(m, t, p, end);
      }
    }

    /** ipc_kmsg_clean_body: exactly what the body holds is given back. */
    method CleanBody(m: seq<Word>, start: nat, end: nat)
      requires Valid() && Sound(m, heap, start, end) && Holds(m, heap, start, end) <= held
      modifies this
      ensures Valid() && SubHeap(heap, old(heap))
      ensures held + Holds(m, old(heap), start, end) == old(held)
    {
      ghost var total := Holds(m, heap, start, end);
      var p := start;
      while 8 * p < end
        invariant Valid() && SubHeap(heap, old(heap))
        invariant Sound(m, heap, p, end) && Holds(m, heap, p, end) <= held
        invariant held + total == old(held) + Holds(m, heap, p, end)
        decreases end - 8 * p
      {
        ghost var heap0, held0 := heap, held;
        assert ItemHolds(m, heap, p, end) <= Holds(m, heap, p, end);
        CleanItem(m, p, end);
        CleanStep(m, heap0, heap, held0, held, p, end);
        Settle(held0, held, total, old(held), Holds(m, heap0, p, end), Holds(m, heap, Next(m[p], p), end));
        p := Next(m[p], p);
      }
    }

    // -------------------------------------------------------------- taking

    /** kalloc: there is no memory, or a fresh block of `n` words. */
    method Kalloc(n: nat) returns (data: Word)
      requires Valid()
      modifies this
      ensures Valid()
      ensures data == ZERO ==> held == old(held) && heap == old(heap)
      ensures data != ZERO ==>
        && data !in old(heap) && data in heap && heap == old(heap)[data := heap[data]] && |heap[data]| == n
        && held == old(held) + multiset{Memory(data, 8 * n)}
    {
      data := *;
      if data in heap {
        data := ZERO;
      }
      if data != ZERO {
        assert Memory(data, 8 * n) !in held;
        heap := heap[data := seq(n, _ => ZERO)];
        held := held + multiset{Memory(data, 8 * n)};
      }
    }

    method Fill(data: Word, contents: seq<Word>)
      requires Valid() && data in heap && |contents| == |heap[data]|
      modifies this`heap
      ensures Valid() && heap == old(heap)[data := contents]
    {
      heap := heap[data := contents];
    }

    /** vm_map_copyin or vm_map_copyin_page_list. */
    method VmCopyin() returns (ok: bool, copy: Word)
      requires Valid()
      modifies this`held
      ensures Valid() && held == if ok then old(held) + multiset{Copy(copy)} else old(held)
    {
      ok := *;
      copy := *;
      if ok {
        held := held + multiset{Copy(copy)};
      }
    }

    /** ipc_object_copyin: the right may be invalid, and the object may turn out dead. */
    method ObjectCopyin(port: Word, name: nat) returns (ok: bool, io: Word)
      requires Valid() && IsPort(name)
      modifies this`held
      ensures Valid() && held == if ok then old(held) + OneRight(io, ReceivedName(name)) else old(held)
    {
      ok := *;
      io := *;
      if ok && IoValid(io) {
        held := held + multiset{Right(io, ReceivedName(name))};
      }
    }

    /** One turn of the loop over the ports of an item. */
    method CopyInRight(port: Word, name: nat) returns (ok: bool, io: Word, circular: bool)
      requires Valid() && IsPort(name)
      modifies this`held
      ensures Valid() && held == if ok then old(held) + OneRight(io, ReceivedName(name)) else old(held)
      ensures !NameValid(port) ==> ok && !IoValid(io)
      ensures circular ==> name == MOVE_RECEIVE
    {
      circular := false;
      if !NameValid(port) {
        ok, io := true, if LowHalf(port) == LowHalf(ZERO) then ZERO else ONES;
      } else {
        ok, io := ObjectCopyin(LowHalf(port), name);
        if ok && ReceivedName(name) == MOVE_RECEIVE {
          circular := *;
        }
      }
    }

    /**
      * The loop of ipc_kmsg_copyin_body over the ports of an item.  It stops at the first name that
      * is no right; the places before it hold objects, the others still names.
      */
    method CopyInRights(names: seq<Word>, name: nat) returns (objects: seq<Word>, i: nat, circular: bool)
      requires Valid() && IsPort(name)
      modifies this`held
      ensures Valid() && i <= |objects| == |names|
      ensures forall j :: i <= j < |names| ==> objects[j] == names[j]
      ensures held == old(held) + Rights(objects[..i], ReceivedName(name))
      ensures circular ==> name == MOVE_RECEIVE
    {
      objects, i, circular := names, 0, false;
      while i < |names|
        invariant Valid() && i <= |objects| == |names|
        invariant forall j :: i <= j < |names| ==> objects[j] == names[j]
        invariant held == old(held) + Rights(objects[..i], ReceivedName(name))
        invariant circular ==> name == MOVE_RECEIVE
      {
        var ok, io, cycle := CopyInRight(objects[i], name);
        if !ok {
          return;
        }
        RightsAt(objects, i, io, ReceivedName(name));
        objects, circular := objects[i := io], circular || cycle;
        i := i + 1;
      }
    }
  }

  lemma RightsStep(objects: seq<Word>, i: nat, name: nat)
    requires i < |objects|
    ensures Rights(objects[..i + 1], name) == Rights(objects[..i], name) + OneRight(objects[i], name)
  {
    assert objects[..i + 1][..i] == objects[..i];
  }

  lemma RightsAt(objects: seq<Word>, i: nat, io: Word, name: nat)
    requires i < |objects|
    ensures Rights(objects[i := io][..i + 1], name) == Rights(objects[..i], name) + OneRight(io, name)
  {
    RightsStep(objects[i := io], i, name);
    assert objects[i := io][..i] == objects[..i];
  }

  lemma StillHeld(held: multiset<Resource>, start: multiset<Resource>, objects: seq<Word>, i: nat, name: nat)
    requires i < |objects| && Rights(objects, name) <= start && held + Rights(objects[..i], name) == start
    ensures OneRight(objects[i], name) <= held
  {
    RightsGrow(objects, i + 1, name);
    RightsStep(objects, i, name);
    Remaining(held, Rights(objects[..i], name), OneRight(objects[i], name), start);
  }

  lemma Remaining<T>(held: multiset<T>, gone: multiset<T>, more: multiset<T>, start: multiset<T>)
    requires held + gone == start && gone + more <= start
    ensures more <= held
  {
    forall x ensures more[x] <= held[x] {
      assert (held + gone)[x] == held[x] + gone[x];
      assert (gone + more)[x] <= start[x];
    }
  }

  lemma {:induction false} RightsGrow(objects: seq<Word>, i: nat, name: nat)
    requires i <= |objects|
    ensures Rights(objects[..i], name) <= Rights(objects, name)
    decreases |objects|
  {
    if i < |objects| {
      var most := objects[..|objects| - 1];
      assert most[..i] == objects[..i];
      RightsGrow(most, i, name);
    } else {
      assert objects[..i] == objects;
    }
  }
}
