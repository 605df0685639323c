/** ipc_kmsg_copyin_body, ipc_kmsg_clean_partial and ipc_kmsg_clean. */
module KmsgCopyin {
  import opened PortTypes
  import opened KmsgLedger

  // ---------------------------------------------------------------- bodies copied in so far

  /** The item at `p` was copied in whole: the chain of items goes on at `Next`. */
  ghost predicate ItemDone(m: seq<Word>, heap: Heap, p: nat, end: nat) {
    && 8 * (p + 1) <= end && p < |m| && Next(m[p], p) <= |m|
    && var t := m[p];
       if t.inline then IsPort(t.name) ==> t.size == PORT_BITS && 8 * (p + 1 + t.number) <= end
       else IsPort(t.name) && t.number > 0 ==> PortArray(t, m[p + 1], heap)
  }

  ghost function ItemGives(m: seq<Word>, heap: Heap, p: nat, end: nat): multiset<Resource>
    requires ItemDone(m, heap, p, end)
  {
    var t := m[p];
    if !t.inline then OutOfLine(t, m[p + 1], heap)
    else if IsPort(t.name) then PortLength(t); Rights(m[p + 1..p + 1 + t.number], t.name)
    else multiset{}
  }

  ghost predicate Done(m: seq<Word>, heap: Heap, p: nat, q: nat, end: nat)
    decreases q - p
  {
    p == q || (p < q && ItemDone(m, heap, p, end) && Done(m, heap, Next(m[p], p), q, end))
  }

  ghost function Gives(m: seq<Word>, heap: Heap, p: nat, q: nat, end: nat): multiset<Resource>
    requires Done(m, heap, p, q, end)
    decreases q - p
  {
    if p == q then multiset{}
    else ItemGives(m, heap, p, end) + Gives(m, heap, Next(m[p], p), q, end)
  }

  lemma {:induction false} DoneReaches(m: seq<Word>, heap: Heap, p: nat, q: nat, end: nat)
    requires Done(m, heap, p, q, end)
    ensures p <= q && (p < q ==> q <= |m| && Next(m[p], p) <= q)
    decreases q - p
  {
    if p < q {
      DoneReaches(m, heap, Next(m[p], p), q, end);
    }
  }

  /** The items before `q` fit in the words before `q`. */
  lemma {:induction false} DoneCut(m: seq<Word>, heap: Heap, p: nat, q: nat, end: nat)
    requires Done(m, heap, p, q, end)
    ensures Done(m, heap, p, q, 8 * q) && Gives(m, heap, p, q, 8 * q) == Gives(m, heap, p, q, end)
    decreases q - p
  {
    if p < q {
      DoneReaches(m, heap, p, q, end);
      PortLength(m[p]);
      DoneCut(m, heap, Next(m[p], p), q, end);
    }
  }

  lemma ItemDoneHolds(m: seq<Word>, heap: Heap, p: nat, end: nat)
    requires ItemDone(m, heap, p, end)
    ensures ItemSound(m, heap, p, end) && ItemHolds(m, heap, p, end) == ItemGives(m, heap, p, end)
  {
    PortLength(m[p]);
  }

  /** clean_body finds in a body copied in exactly what was acquired for it. */
  lemma {:induction false} DoneHolds(m: seq<Word>, heap: Heap, p: nat, q: nat, end: nat)
    requires Done(m, heap, p, q, end) && end <= 8 * q
    ensures Sound(m, heap, p, end) && Holds(m, heap, p, end) == Gives(m, heap, p, q, end)
    decreases q - p
  {
    if p < q {
      ItemDoneHolds(m, heap, p, end);
      DoneHolds(m, heap, Next(m[p], p), q, end);
    }
  }

  lemma SliceKept<T>(m: seq<T>, m': seq<T>, q: nat, a: nat, b: nat)
    requires |m| == |m'| && a <= b <= q <= |m| && m'[..q] == m[..q]
    ensures m'[a..b] == m[a..b]
  {
    forall i | a <= i < b ensures m'[i] == m[i] {
      assert m'[..q][i] == m[..q][i];
    }
  }

  lemma ItemKept(m: seq<Word>, heap: Heap, m': seq<Word>, heap': Heap, p: nat, q: nat, end: nat)
    requires ItemDone(m, heap, p, end) && SubHeap(heap, heap')
    requires |m| == |m'| && Next(m[p], p) <= q <= |m| && m'[..q] == m[..q]
    ensures m'[p] == m[p] && ItemDone(m', heap', p, end) && ItemGives(m', heap', p, end) == ItemGives(m, heap, p, end)
  {
    var t := m[p];
    assert m'[p] == m'[..q][p] == m[p];
    if t.inline {
      if IsPort(t.name) {
        PortLength(t);
        SliceKept(m, m', q, p + 1, p + 1 + t.number);
      }
    } else {
      assert m'[p + 1] == m'[..q][p + 1] == m[p + 1];
    }
  }

  /** Copying in one more item leaves alone what the earlier ones gave. */
  lemma {:induction false} DoneKept(m: seq<Word>, heap: Heap, m': seq<Word>, heap': Heap, p: nat, q: nat, end: nat)
    requires Done(m, heap, p, q, end) && SubHeap(heap, heap')
    requires |m| == |m'| && q <= |m| && m'[..q] == m[..q]
    ensures Done(m', heap', p, q, end) && Gives(m', heap', p, q, end) == Gives(m, heap, p, q, end)
    decreases q - p
  {
    if p < q {
      DoneReaches(m, heap, p, q, end);
      ItemKept(m, heap, m', heap', p, q, end);
      DoneKept(m, heap, m', heap', Next(m[p], p), q, end);
    }
  }

  lemma {:induction false} DoneMore(m: seq<Word>, heap: Heap, p: nat, q: nat, end: nat)
    requires Done(m, heap, p, q, end) && ItemDone(m, heap, q, end)
    ensures var next := Next(m[q], q);
      && Done(m, heap, p, next, end)
      && Gives(m, heap, p, next, end) == Gives(m, heap, p, q, end) + ItemGives(m, heap, q, end)
    decreases q - p
  {
    var next := Next(m[q], q);
    if p < q {
      DoneMore(m, heap, Next(m[p], p), q, end);
    } else {
      assert Done(m, heap, next, next, end);
    }
  }

  // ---------------------------------------------------------------- what the checks say

  /** The tests on the item at `p` that depend on nothing but the message. */
  function ItemCheck(m: seq<Word>, p: nat, end: nat): Return
    requires end <= 8 * |m|
  {
    if end < 8 * (p + 1) then TooSmall
    else
      var t := m[p];
      if (IsPort(t.name) && t.size != if t.inline then PORT_BITS else NAME_BITS) || t.unused != 0
        || (t.deallocate && t.inline) then
        InvalidType
      else if end - 8 * (p + 1) < (if t.inline then Length(t) else 8) then TooSmall
      else Success
  }

  function Check(m: seq<Word>, p: nat, end: nat): Return
    requires end <= 8 * |m|
    decreases end - 8 * p
  {
    if 8 * p >= end then Success
    else
      var r := ItemCheck(m, p, end);
      if r.Success? then Check(m, Next(m[p], p), end) else r
  }

  /** An item that may hold something: out of line, or ports. */
  predicate Carries(t: Word) { !t.inline || IsPort(t.name) }

  predicate AnyCarries(m: seq<Word>, p: nat, end: nat)
    requires end <= 8 * |m|
    decreases end - 8 * p
  {
    8 * (p + 1) <= end && (Carries(m[p]) || AnyCarries(m, Next(m[p], p), end))
  }

  /** The items before `p` were copied in and gave `got`. */
  ghost predicate Got(m: seq<Word>, heap: Heap, p: nat, end: nat, got: multiset<Resource>) {
    Done(m, heap, 0, p, end) && Gives(m, heap, 0, p, end) == got
  }

  lemma GotKept(m: seq<Word>, heap: Heap, m': seq<Word>, heap': Heap, p: nat, end: nat, got: multiset<Resource>)
    requires Got(m, heap, p, end, got) && SubHeap(heap, heap') && |m| == |m'| && p <= |m| && m'[..p] == m[..p]
    ensures Got(m', heap', p, end, got)
  {
    DoneKept(m, heap, m', heap', 0, p, end);
  }

  /** What the item at `p` holds when only its first `number` ports were copied in. */
  ghost predicate PartSound(m: seq<Word>, heap: Heap, p: nat, number: nat) {
    && p < |m| && IsPort(m[p].name) && number < m[p].number
    && if m[p].inline then p + 1 + number <= |m| else p + 1 < |m| && PortArray(m[p], m[p + 1], heap)
  }

  ghost function Part(m: seq<Word>, heap: Heap, p: nat, number: nat): multiset<Resource>
    requires PartSound(m, heap, p, number)
  {
    if m[p].inline then Rights(m[p + 1..p + 1 + number], m[p].name)
    else Rights(heap[m[p + 1]][..number], m[p].name) + multiset{Memory(m[p + 1], 8 * m[p].number)}
  }

  class Message {
    var words: seq<Word>      // the body
    const size: nat           // its length in bytes
    var remote: Word
    var remoteName: nat
    var local: Word
    var localName: nat
    var request: nat          // ikm_marequest, 0 if there is none
    var complex: bool
    var circular: bool

    ghost predicate Valid()
      reads this
    {
      size <= 8 * |words| < size + 8
    }

    ghost function Header(): multiset<Resource>
      reads this`remote, this`remoteName, this`local, this`localName, this`request
    {
      OneRight(remote, remoteName) + OneRight(local, localName)
      + if request == 0 then multiset{} else multiset{Request(request)}
    }

    constructor (words: seq<Word>, size: nat, remote: Word, remoteName: nat, local: Word, localName: nat, complex: bool)
      requires size <= 8 * |words| < size + 8
      ensures Valid() && this.words == words && this.size == size && this.complex == complex
      ensures Header() == OneRight(remote, remoteName) + OneRight(local, localName)
    {
      this.words, this.size, this.complex, this.circular := words, size, complex, false;
      this.remote, this.remoteName, this.local, this.localName, this.request := remote, remoteName, local, localName, 0;
    }

    /** What ipc_kmsg_clean finds in the body: it looks only if the message is complex. */
    ghost function Carried(heap: Heap): multiset<Resource>
      reads this`complex, this`words
      requires complex ==> Sound(words, heap, 0, size)
    {
      if complex then Holds(words, heap, 0, size) else multiset{}
    }

    method CleanHeader(k: Kernel)
      requires k.Valid() && Header() <= k.held
      modifies k`held
      ensures k.Valid() && k.held + Header() == old(k.held)
    {
      ghost var held0 := k.held;
      ghost var asked := if request == 0 then multiset{} else multiset{Request(request)};
      if request != 0 {
        assert Request(request) in Header();
        k.Release(Request(request));
      }
      ghost var held1 := k.held;
      Remaining(held1, asked, OneRight(remote, remoteName) + OneRight(local, localName), held0);
      k.DestroyRight(remote, remoteName);
      Remaining(k.held, OneRight(remote, remoteName), OneRight(local, localName), held1);
      k.DestroyRight(local, localName);
    }

    /** ipc_kmsg_clean: it gives back the header, and the body if the message is complex. */
    method Clean(k: Kernel)
      requires Valid() && k.Valid() && (complex ==> Sound(words, k.heap, 0, size))
      requires Header() + Carried(k.heap) <= k.held
      modifies k
      ensures k.Valid() && k.held + (Header() + Carried(old(k.heap))) == old(k.held)
    {
      CleanHeader(k);
      if complex {
        ghost var body := Holds(words, k.heap, 0, size);
        ghost var held1 := k.held;
        Remaining(k.held, Header(), body, old(k.held));
        k.CleanBody(words, 0, size);
        Both(k.held, body, held1, Header(), old(k.held));
      }
    }

    /** The part of ipc_kmsg_clean_partial for the item that failed. */
    method CleanLast(k: Kernel, p: nat, number: nat)
      requires k.Valid() && PartSound(words, k.heap, p, number) && Part(words, k.heap, p, number) <= k.held
      modifies k
      ensures k.Valid() && k.held + Part(words, old(k.heap), p, number) == old(k.held)
    {
      var m := words;
      var t := m[p];
      if t.inline {
        k.DestroyRights(m[p + 1..p + 1 + number], t.name);
      } else {
        PortLength(t);
        k.DestroyRights(k.heap[m[p + 1]][..number], t.name);
        k.DestroyMemory(t, m[p + 1]);
      }
    }

    /** ipc_kmsg_clean_partial without `dolast`. */
    method CleanBefore(k: Kernel, p: nat, ghost got: multiset<Resource>)
      requires Valid() && k.Valid() && request == 0
      requires Got(words, k.heap, p, size, got) && Header() + got <= k.held
      modifies k
      ensures k.Valid() && SubHeap(k.heap, old(k.heap)) && k.held + (Header() + got) == old(k.held)
    {
      DoneCut(words, k.heap, 0, p, size);
      DoneHolds(words, k.heap, 0, p, 8 * p);
      CleanHeader(k);
      ghost var held1 := k.held;
      Remaining(k.held, Header(), got, old(k.held));
      k.CleanBody(words, 0, 8 * p);
      Both(k.held, got, held1, Header(), old(k.held));
    }

    /** ipc_kmsg_clean_partial with `dolast`: also the first `number` ports of the item at `p`. */
    method CleanThrough(k: Kernel, p: nat, number: nat, ghost got: multiset<Resource>)
      requires Valid() && k.Valid() && request == 0
      requires Got(words, k.heap, p, size, got) && PartSound(words, k.heap, p, number)
      requires Header() + got + Part(words, k.heap, p, number) <= k.held
      modifies k
      ensures k.Valid() && k.held + (Header() + got + Part(words, old(k.heap), p, number)) == old(k.held)
    {
      ghost var m, heap0, held0 := words, k.heap, k.held;
      ghost var part := Part(m, heap0, p, number);
      CleanBefore(k, p, got);
      ghost var held1 := k.held;
      Remaining(k.held, Header() + got, part, held0);
      if !m[p].inline {
        assert Memory(m[p + 1], 8 * m[p].number) in part;
      }
      assert Part(m, k.heap, p, number) == part;
      CleanLast(k, p, number);
      Both(k.held, part, held1, Header() + got, held0);
    }

    /** A right at place `number` of the item at `p` was refused: everything since `start` is undone. */
    method GiveUp(k: Kernel, p: nat, number: nat, ghost got: multiset<Resource>, ghost start: multiset<Resource>)
      requires Valid() && k.Valid() && request == 0
      requires Got(words, k.heap, p, size, got) && PartSound(words, k.heap, p, number)
      requires Header() + got <= start && k.held == start + Part(words, k.heap, p, number)
      modifies k
      ensures k.Valid() && k.held + (Header() + got) == start
    {
      ghost var part := Part(words, k.heap, p, number);
      assert Header() + got + part <= start + part;
      CleanThrough(k, p, number, got);
      Refund(k.held, Header() + got, part, start);
    }

    /** Inline ports: their names give way to rights. */
    method EnterPorts(k: Kernel, p: nat) returns (objects: seq<Word>, i: nat)
      requires k.Valid() && p < |words| && IsPort(words[p].name) && p + 1 + words[p].number <= |words|
      modifies k`held, this`circular, this`words
      ensures k.Valid() && i <= |objects| == old(words[p]).number
      ensures words == Put(old(words), p, Renamed(old(words[p])), objects)
      ensures k.held == old(k.held) + Rights(objects[..i], ReceivedName(old(words[p]).name))
    {
      var t := words[p];
      var cycle;
      objects, i, cycle := k.CopyInRights(words[p + 1..p + 1 + t.number], t.name);
      circular := circular || cycle;
      words := Put(words, p, Renamed(t), objects);
    }

    method FailInline(k: Kernel, p: nat, i: nat, ghost objects: seq<Word>, ghost m: seq<Word>,
                      ghost got: multiset<Resource>, ghost start: multiset<Resource>)
      requires Valid() && k.Valid() && request == 0 && InlinePorts(m, p, size) && Got(m, k.heap, p, size, got)
      requires i < |objects| == m[p].number && words == Put(m, p, Renamed(m[p]), objects)
      requires Header() + got <= start && k.held == start + Rights(objects[..i], ReceivedName(m[p].name))
      modifies k
      ensures k.Valid() && k.held + (Header() + got) == start
    {
      PutKept(m, k.heap, p, objects, size, got);
      PutPart(m, k.heap, p, objects, i);
      GiveUp(k, p, i, got, start);
    }

    method FinishInline(k: Kernel, p: nat, i: nat, number: nat, ghost objects: seq<Word>, ghost m: seq<Word>,
                        ghost got: multiset<Resource>, ghost start: multiset<Resource>) returns (r: Return)
      requires Valid() && k.Valid() && request == 0 && InlinePorts(m, p, size) && Got(m, k.heap, p, size, got)
      requires i <= number == |objects| == m[p].number && words == Put(m, p, Renamed(m[p]), objects)
      requires Header() + got <= start && k.held == start + Rights(objects[..i], ReceivedName(m[p].name))
      modifies k
      ensures k.Valid() && r in {Success, InvalidRight}
      ensures r != Success ==> k.held + (Header() + got) == start
      ensures r == Success ==> k.heap == old(k.heap) && ItemTaken(m, words, k.heap, p, size, start, k.held)
    {
      if i < number {
        FailInline(k, p, i, objects, m, got, start);
        r := InvalidRight;
      } else {
        assert objects[..i] == objects;
        PutDone(m, k.heap, p, objects, size);
        r := Success;
      }
    }

    method CopyInInlinePorts(k: Kernel, p: nat, ghost got: multiset<Resource>) returns (r: Return)
      requires Valid() && k.Valid() && request == 0 && InlinePorts(words, p, size)
      requires Got(words, k.heap, p, size, got) && Header() + got <= k.held
      modifies k, this`circular, this`words
      ensures k.Valid() && r in {Success, InvalidRight}
      ensures r != Success ==> k.held + (Header() + got) == old(k.held)
      ensures r == Success ==>
        k.heap == old(k.heap) && ItemTaken(old(words), words, k.heap, p, size, old(k.held), k.held)
    {
      ghost var m, start := words, k.held;
      var objects, i := EnterPorts(k, p);
      r := FinishInline(k, p, i, words[p].number, objects, m, got, start);
    }

    /** Copying in the names of an out-of-line array; `data` is 0 if any step of it fails. */
    method GrabNames(k: Kernel, number: nat, deallocate: bool) returns (data: Word)
      requires k.Valid()
      modifies k
      ensures k.Valid()
      ensures data == ZERO ==> k.held == old(k.held) && k.heap == old(k.heap)
      ensures data != ZERO ==>
        Allocated(old(k.heap), k.heap, data, number) && k.held == old(k.held) + multiset{Memory(data, 8 * number)}
    {
      data := k.Kalloc(number);
      if data != ZERO {
        var faulted: bool, kept: bool := *, *;  // copyin_port, vm_deallocate
        if faulted || (deallocate && kept) {
          k.Kfree(data, 8 * number);
          Cancel(k.held, old(k.held), multiset{Memory(data, 8 * number)});
          assert k.heap == old(k.heap);
          data := ZERO;
        } else {
          var names: seq<Word> := *;
          if |names| == number {
            k.Fill(data, names);
          }
        }
      }
    }

    method FailMemory(k: Kernel, p: nat, ghost m: seq<Word>, ghost got: multiset<Resource>)
      requires Valid() && k.Valid() && request == 0 && p < |words| == |m| && words[..p] == m[..p]
      requires Got(m, k.heap, p, size, got) && Header() + got <= k.held
      modifies k
      ensures k.Valid() && k.held + (Header() + got) == old(k.held)
    {
      GotKept(m, k.heap, words, k.heap, p, size, got);
      CleanBefore(k, p, got);
    }

    method FailOutOfLine(k: Kernel, p: nat, i: nat, data: Word, ghost m: seq<Word>, ghost heap: Heap,
                         ghost got: multiset<Resource>, ghost start: multiset<Resource>)
      requires Valid() && k.Valid() && request == 0 && OutOfLinePorts(m, p, size) && Got(m, heap, p, size, got)
      requires Allocated(heap, k.heap, data, m[p].number) && i < m[p].number
        && words == Put(m, p, OutWord(m[p]), [data])
      requires Header() + got <= start
      requires k.held
        == start + (Rights(k.heap[data][..i], OutWord(m[p]).name) + multiset{Memory(data, 8 * m[p].number)})
      modifies k
      ensures k.Valid() && k.held + (Header() + got) == start
    {
      PutParts(m, p, OutWord(m[p]), [data]);
      GotKept(m, heap, words, k.heap, p, size, got);
      OutPart(m, k.heap, p, data, i);
      GiveUp(k, p, i, got, start);
    }

    method EnterArray(k: Kernel, p: nat, data: Word, ghost heap: Heap) returns (i: nat)
      requires k.Valid() && OutOfLinePorts(words, p, size) && Allocated(heap, k.heap, data, words[p].number)
      modifies k, this`circular, this`words
      ensures k.Valid() && Allocated(heap, k.heap, data, old(words[p]).number) && i <= old(words[p]).number
      ensures words == Put(old(words), p, OutWord(old(words)[p]), [data])
      ensures k.held == old(k.held) + Rights(k.heap[data][..i], OutWord(old(words)[p]).name)
    {
      var t := words[p];
      words := Put(words, p, OutWord(t), [data]);
      var objects, cycle;
      objects, i, cycle := k.CopyInRights(k.heap[data], t.name);
      circular := circular || cycle;
      k.Fill(data, objects);
    }

    /** After the loop over the array: all of it was entered, or everything is undone. */
    method FinishArray(k: Kernel, p: nat, i: nat, number: nat, data: Word, ghost m: seq<Word>, ghost heap: Heap,
                       ghost got: multiset<Resource>, ghost start: multiset<Resource>) returns (r: Return)
      requires Valid() && k.Valid() && request == 0 && OutOfLinePorts(m, p, size) && Got(m, heap, p, size, got)
      requires Allocated(heap, k.heap, data, m[p].number) && i <= number == m[p].number
        && words == Put(m, p, OutWord(m[p]), [data])
      requires Header() + got <= start
      requires k.held
        == start + (Rights(k.heap[data][..i], OutWord(m[p]).name) + multiset{Memory(data, 8 * m[p].number)})
      modifies k
      ensures k.Valid() && r in {Success, InvalidRight}
      ensures r != Success ==> k.held + (Header() + got) == start
      ensures r == Success ==> SubHeap(heap, k.heap) && ItemTaken(m, words, k.heap, p, size, start, k.held)
    {
      if i < number {
        FailOutOfLine(k, p, i, data, m, heap, got, start);
        r := InvalidRight;
      } else {
        OutTaken(m, k.heap, p, data, size, start, k.held);
        r := Success;
      }
    }

    /** The same, with what is held put as the finish wants it. */
    method EnterHeld(k: Kernel, p: nat, data: Word, ghost heap: Heap, ghost start: multiset<Resource>) returns (i: nat)
      requires k.Valid() && OutOfLinePorts(words, p, size) && Allocated(heap, k.heap, data, words[p].number)
      requires Valid() && k.held == start + multiset{Memory(data, 8 * words[p].number)}
      modifies k, this`circular, this`words
      ensures Valid() && k.Valid() && Allocated(heap, k.heap, data, old(words[p]).number) && i <= old(words[p]).number
      ensures words == Put(old(words), p, OutWord(old(words)[p]), [data])
      ensures var t := old(words)[p];
        k.held == start + (Rights(k.heap[data][..i], OutWord(t).name) + multiset{Memory(data, 8 * t.number)})
    {
      ghost var t := words[p];
      i := EnterArray(k, p, data, heap);
      Regroup(start, multiset{Memory(data, 8 * t.number)}, Rights(k.heap[data][..i], OutWord(t).name));
    }

    method TakeArray(k: Kernel, p: nat, data: Word, ghost heap: Heap, ghost got: multiset<Resource>,
                     ghost start: multiset<Resource>) returns (r: Return)
      requires Valid() && k.Valid() && request == 0 && OutOfLinePorts(words, p, size)
      requires Allocated(heap, k.heap, data, words[p].number)
        && k.held == start + multiset{Memory(data, 8 * words[p].number)}
      requires Got(words, heap, p, size, got) && Header() + got <= start
      modifies k, this`circular, this`words
      ensures k.Valid() && r in {Success, InvalidRight}
      ensures r != Success ==> k.held + (Header() + got) == start
      ensures r == Success ==> SubHeap(heap, k.heap) && ItemTaken(old(words), words, k.heap, p, size, start, k.held)
    {
      ghost var m := words;
      var number := words[p].number;
      var i := EnterHeld(k, p, data, heap, start);
      assert Header() + got <= start;
      r := FinishArray(k, p, i, number, data, m, heap, got, start);
    }

    method CopyInPortArray(k: Kernel, p: nat, ghost got: multiset<Resource>) returns (r: Return)
      requires Valid() && k.Valid() && request == 0 && OutOfLinePorts(words, p, size)
      requires Got(words, k.heap, p, size, got) && Header() + got <= k.held
      modifies k, this`circular, this`words
      ensures k.Valid() && r in {Success, InvalidRight, InvalidMemory}
      ensures r != Success ==> k.held + (Header() + got) == old(k.held)
      ensures r == Success ==>
        SubHeap(old(k.heap), k.heap) && ItemTaken(old(words), words, k.heap, p, size, old(k.held), k.held)
    {
      ghost var m, heap, start := words, k.heap, k.held;
      var data := GrabNames(k, words[p].number, words[p].deallocate);
      if data == ZERO {
        words := words[p := words[p].(size := PORT_BITS)];
        FailMemory(k, p, m, got);
        return InvalidMemory;
      }
      r := TakeArray(k, p, data, heap, got, start);
    }

    /** Out-of-line data that is no port array, or an empty one. */
    method CopyInData(k: Kernel, p: nat, ghost got: multiset<Resource>) returns (r: Return)
      requires Valid() && k.Valid() && request == 0 && p + 1 < |words| && 8 * (p + 2) <= size
      requires !words[p].inline && (IsPort(words[p].name) ==> words[p].number == 0)
      requires Got(words, k.heap, p, size, got) && Header() + got <= k.held
      modifies k, this`words
      ensures k.Valid() && r in {Success, InvalidMemory}
      ensures r != Success ==> k.held + (Header() + got) == old(k.held)
      ensures r == Success ==>
        k.heap == old(k.heap) && ItemTaken(old(words), words, k.heap, p, size, old(k.held), k.held)
    {
      var t, data := words[p], ZERO;
      if Length(t) > 0 {
        var ok;
        ok, data := k.VmCopyin();
        if !ok {
          FailMemory(k, p, words, got);
          return InvalidMemory;
        }
      }
      OutDone(words, k.heap, p, data, size);
      words := Put(words, p, OutWord(t), [data]);
      return Success;
    }

    /** An item that passed the tests. */
    method CopyInChecked(k: Kernel, p: nat, ghost got: multiset<Resource>) returns (r: Return)
      requires Valid() && k.Valid() && request == 0 && ItemCheck(words, p, size) == Success
      requires Got(words, k.heap, p, size, got) && Header() + got <= k.held
      modifies k, this`circular, this`words
      ensures k.Valid() && r in {Success, InvalidRight, InvalidMemory}
      ensures r != Success ==> k.held + (Header() + got) == old(k.held)
      ensures r == Success ==>
        SubHeap(old(k.heap), k.heap) && ItemTaken(old(words), words, k.heap, p, size, old(k.held), k.held)
      ensures r == Success && !Carries(old(words)[p]) ==> k.held == old(k.held)
    {
      var t := words[p];
      PortLength(t);
      if !Carries(t) {
        PlainDone(words, k.heap, p, size);
        r := Success;
      } else if t.inline {
        r := CopyInInlinePorts(k, p, got);
      } else if IsPort(t.name) && t.number > 0 {
        r := CopyInPortArray(k, p, got);
      } else {
        r := CopyInData(k, p, got);
      }
    }

    /** One turn of the loop of ipc_kmsg_copyin_body. */
    method CopyInItem(k: Kernel, p: nat, ghost got: multiset<Resource>) returns (r: Return)
      requires Valid() && k.Valid() && request == 0
      requires Got(words, k.heap, p, size, got) && Header() + got <= k.held
      modifies k, this`circular, this`words
      ensures k.Valid()
      ensures if ItemCheck(old(words), p, size) == Success then r in {Success, InvalidRight, InvalidMemory}
        else r == ItemCheck(old(words), p, size)
      ensures r != Success ==> k.held + (Header() + got) == old(k.held)
      ensures r == Success ==>
        SubHeap(old(k.heap), k.heap) && ItemTaken(old(words), words, k.heap, p, size, old(k.held), k.held)
      ensures r == Success && !Carries(old(words)[p]) ==> k.held == old(k.held)
    {
      r := ItemCheck(words, p, size);
      if r == Success {
        r := CopyInChecked(k, p, got);
      } else {
        CleanBefore(k, p, got);
      }
    }

    /** The items of `m` before `p` were copied in and gave `got`, and nothing else happened since `start`. */
    ghost predicate Underway(k: Kernel, m: seq<Word>, p: nat, got: multiset<Resource>, start: multiset<Resource>)
      reads this, k
    {
      && Valid() && k.Valid() && request == 0 && Header() <= start && k.held == start + got
      && Entering(m, words, k.heap, p, size, got)
    }

    method CopyInTurn(k: Kernel, p: nat, ghost m: seq<Word>, ghost got: multiset<Resource>,
                      ghost start: multiset<Resource>)
      returns (r: Return, ghost more: multiset<Resource>)
      requires Underway(k, m, p, got, start) && 8 * p < size
      modifies k, this`circular, this`words
      ensures if ItemCheck(m, p, size) == Success then r in {Success, InvalidRight, InvalidMemory}
        else r == ItemCheck(m, p, size)
      ensures r != Success ==> k.Valid() && k.held + Header() == start
      ensures r == Success ==> Underway(k, m, Next(m[p], p), more, start) && (!Carries(m[p]) ==> more == got)
    {
      ghost var words0, heap0, held0 := words, k.heap, k.held;
      SameCheck(m, words, p, size);
      Larger(Header(), got, start);
      r := CopyInItem(k, p, got);
      if r == Success {
        more := TurnDone(m, words0, words, heap0, k.heap, p, size, got, start, held0, k.held);
      } else {
        more := got;
        Refund(k.held, Header(), got, start);
      }
    }

    /** The loop of ipc_kmsg_copyin_body. */
    method CopyInItems(k: Kernel) returns (r: Return, p: nat, carries: bool, ghost got: multiset<Resource>)
      requires Valid() && k.Valid() && request == 0 && Header() <= k.held
      modifies k, this`circular, this`words
      ensures r != Success ==> k.Valid() && k.held + Header() == old(k.held)
      ensures r == Success ==> 8 * p >= size && Underway(k, old(words), p, got, old(k.held))
      ensures r == Success ==> carries == AnyCarries(old(words), 0, size) && (!carries ==> got == multiset{})
      ensures r in {Success, TooSmall, InvalidType} ==> r == Check(old(words), 0, size)
    {
      ghost var m, start := words, k.held;
      got, carries, p, r := multiset{}, false, 0, Success;
      while 8 * p < size
        invariant Underway(k, m, p, got, start) && r == Success && (!carries ==> got == multiset{})
        invariant Check(m, 0, size) == Check(m, p, size)
        invariant AnyCarries(m, 0, size) <==> carries || AnyCarries(m, p, size)
        decreases size - 8 * p
      {
        var t := words[p];
        assert t == m[p] by {
          SameCheck(m, words, p, size);
        }
        r, got := CopyInTurn(k, p, m, got, start);
        if r != Success {
          return;
        }
        p, carries := Next(t, p), carries || Carries(t);
      }
    }

    /**
      * ipc_kmsg_copyin_body.  Whatever fails, and wherever, the header and everything taken for the
      * body are given back; otherwise the ledger grew by exactly what ipc_kmsg_clean will find.
      */
    method CopyInBody(k: Kernel) returns (r: Return)
      requires Valid() && k.Valid() && request == 0 && Header() <= k.held
      modifies k, this`circular, this`words, this`complex
      ensures k.Valid() && (r == Success ==> Valid())
      ensures r != Success ==> k.held + Header() == old(k.held) && complex == old(complex)
      ensures r == Success ==> Sound(words, k.heap, 0, size) && k.held == old(k.held) + Holds(words, k.heap, 0, size)
      ensures r == Success ==> complex == (old(complex) && AnyCarries(old(words), 0, size))
      ensures r == Success && old(complex) ==> Carried(k.heap) == Holds(words, k.heap, 0, size)
      ensures r in {Success, TooSmall, InvalidType} ==> r == Check(old(words), 0, size)
    {
      var p, carries;
      ghost var got;
      r, p, carries, got := CopyInItems(k);
      if r == Success {
        DoneHolds(words, k.heap, 0, p, size);
        if !carries {
          complex := false;
        }
      }
    }

    /** A message that was copied in and is then destroyed leaves nothing behind. */
    method CopyInThenClean(k: Kernel) returns (r: Return)
      requires Valid() && k.Valid() && request == 0 && complex && Header() <= k.held
      modifies k, this`circular, this`words, this`complex
      ensures k.Valid() && k.held + Header() == old(k.held)
    {
      ghost var start := k.held;
      r := CopyInBody(k);
      if r == Success {
        ghost var body := Carried(k.heap);
        Larger(Header(), body, start);
        Clean(k);
        Refund(k.held, Header(), body, start);
      }
    }
  }

  /** The item at `p` is inline ports, and passed the tests. */
  predicate InlinePorts(m: seq<Word>, p: nat, end: nat) {
    && p < |m| && m[p].inline && IsPort(m[p].name) && m[p].size == PORT_BITS
    && 8 * (p + 1 + m[p].number) <= end && p + 1 + m[p].number <= |m|
  }

  /** The item at `p` was copied in, nothing else of the message changed, and `held` grew by what it gives. */
  ghost predicate ItemTaken(m: seq<Word>, m': seq<Word>, heap: Heap, p: nat, end: nat, start: multiset<Resource>,
                            held: multiset<Resource>) {
    && Entered(m, m', p) && ItemDone(m', heap, p, end) && held == start + ItemGives(m', heap, p, end)
  }

  predicate OutOfLinePorts(m: seq<Word>, p: nat, end: nat) {
    p + 1 < |m| && 8 * (p + 2) <= end && !m[p].inline && IsPort(m[p].name) && m[p].number > 0
  }

  /** `data` is a new block of `number` words. */
  ghost predicate Allocated(heap: Heap, heap': Heap, data: Word, number: nat) {
    data !in heap && data in heap' && |heap'[data]| == number && SubHeap(heap, heap')
  }

  /** What copyin leaves in place of an out-of-line descriptor. */
  function OutWord(t: Word): Word {
    if !IsPort(t.name) then t else if t.number > 0 then Renamed(t).(size := PORT_BITS) else Renamed(t)
  }

  lemma OutPart(m: seq<Word>, heap: Heap, p: nat, data: Word, i: nat)
    requires p + 1 < |m| && !m[p].inline && IsPort(m[p].name) && i < m[p].number
    requires data in heap && |heap[data]| == m[p].number
    ensures var m' := Put(m, p, OutWord(m[p]), [data]);
      && PartSound(m', heap, p, i)
      && Part(m', heap, p, i) == Rights(heap[data][..i], OutWord(m[p]).name) + multiset{Memory(data, 8 * m[p].number)}
  {
    PutParts(m, p, OutWord(m[p]), [data]);
  }

  lemma OutDone(m: seq<Word>, heap: Heap, p: nat, data: Word, end: nat)
    requires p + 1 < |m| && 8 * (p + 2) <= end && !m[p].inline
    requires IsPort(m[p].name) && m[p].number > 0 ==> data in heap && |heap[data]| == m[p].number
    ensures var m' := Put(m, p, OutWord(m[p]), [data]);
      && Entered(m, m', p) && ItemDone(m', heap, p, end)
      && ItemGives(m', heap, p, end) == OutOfLine(OutWord(m[p]), data, heap)
  {
    PutParts(m, p, OutWord(m[p]), [data]);
  }

  /** The items of `m` before `p` were copied in and gave `got`; the rest is still as it was. */
  ghost predicate Entering(m: seq<Word>, m': seq<Word>, heap: Heap, p: nat, end: nat, got: multiset<Resource>) {
    |m'| == |m| && p <= |m| && m'[p..] == m[p..] && Got(m', heap, p, end, got)
  }

  lemma EnteringStep(m0: seq<Word>, m: seq<Word>, m': seq<Word>, heap: Heap, heap': Heap, p: nat, end: nat,
                     got: multiset<Resource>, start: multiset<Resource>, held: multiset<Resource>)
    requires Entering(m0, m, heap, p, end, got) && SubHeap(heap, heap') && ItemTaken(m, m', heap', p, end, start, held)
    ensures m[p] == m0[p] && Entering(m0, m', heap', Next(m0[p], p), end, got + ItemGives(m', heap', p, end))
  {
    assert m[p] == m[p..][0] == m0[p..][0];
    var next := Next(m0[p], p);
    assert m[next..] == m[p..][next - p..] == m0[p..][next - p..] == m0[next..];
    GotKept(m, heap, m', heap', p, end, got);
    DoneMore(m', heap', 0, p, end);
  }

  lemma SameCheck(m: seq<Word>, m': seq<Word>, p: nat, end: nat)
    requires |m| == |m'| && p < |m| && m'[p..] == m[p..] && end <= 8 * |m|
    ensures m'[p] == m[p] && ItemCheck(m', p, end) == ItemCheck(m, p, end)
  {
    assert m'[p] == m'[p..][0] == m[p..][0] == m[p];
  }

  lemma TurnDone(m0: seq<Word>, m: seq<Word>, m': seq<Word>, heap: Heap, heap': Heap, p: nat, end: nat,
                 got: multiset<Resource>, start: multiset<Resource>, held: multiset<Resource>,
                 held': multiset<Resource>)
    returns (more: multiset<Resource>)
    requires Entering(m0, m, heap, p, end, got) && SubHeap(heap, heap') && ItemTaken(m, m', heap', p, end, held, held')
    requires held == start + got && (!Carries(m[p]) ==> held' == held)
    ensures m[p] == m0[p] && Entering(m0, m', heap', Next(m0[p], p), end, more)
    ensures held' == start + more && (!Carries(m0[p]) ==> more == got)
  {
    EnteringStep(m0, m, m', heap, heap', p, end, got, held, held');
    more := got + ItemGives(m', heap', p, end);
    Grown(held', held, start, got, ItemGives(m', heap', p, end), Carries(m[p]));
  }

  lemma PlainDone(m: seq<Word>, heap: Heap, p: nat, end: nat)
    requires end <= 8 * |m| && ItemCheck(m, p, end) == Success && !Carries(m[p])
    ensures Entered(m, m, p) && ItemDone(m, heap, p, end) && ItemGives(m, heap, p, end) == multiset{}
  {}

  lemma OutTaken(m: seq<Word>, heap: Heap, p: nat, data: Word, end: nat, start: multiset<Resource>,
                 held: multiset<Resource>)
    requires OutOfLinePorts(m, p, end) && data in heap && |heap[data]| == m[p].number
    requires held
      == start + (Rights(heap[data][..m[p].number], OutWord(m[p]).name) + multiset{Memory(data, 8 * m[p].number)})
    ensures ItemTaken(m, Put(m, p, OutWord(m[p]), [data]), heap, p, end, start, held)
  {
    OutDone(m, heap, p, data, end);
    assert heap[data][..m[p].number] == heap[data];
  }

  function Renamed(t: Word): Word
    requires IsPort(t.name)
  {
    t.(name := ReceivedName(t.name))
  }

  /** The message with the descriptor at `p` and the words after it replaced. */
  function Put(m: seq<Word>, p: nat, t: Word, objects: seq<Word>): seq<Word>
    requires p + 1 + |objects| <= |m|
  {
    m[..p] + [t] + objects + m[p + 1 + |objects|..]
  }

  /** Only the item at `p` changed, and its extent did not. */
  ghost predicate Entered(m: seq<Word>, m': seq<Word>, p: nat) {
    && |m| == |m'| && p < |m| && Next(m[p], p) == Next(m'[p], p) <= |m|
    && m'[..p] == m[..p] && m'[Next(m[p], p)..] == m[Next(m[p], p)..]
  }

  lemma PutParts(m: seq<Word>, p: nat, t: Word, objects: seq<Word>)
    requires p + 1 + |objects| <= |m|
    ensures var m' := Put(m, p, t, objects);
      && |m'| == |m| && m'[p] == t && m'[..p] == m[..p]
      && m'[p + 1..p + 1 + |objects|] == objects && m'[p + 1 + |objects|..] == m[p + 1 + |objects|..]
  {}

  lemma PutKept(m: seq<Word>, heap: Heap, p: nat, objects: seq<Word>, end: nat, got: multiset<Resource>)
    requires p + 1 + |objects| <= |m| && IsPort(m[p].name) && Got(m, heap, p, end, got)
    ensures Got(Put(m, p, Renamed(m[p]), objects), heap, p, end, got)
  {
    PutParts(m, p, Renamed(m[p]), objects);
    GotKept(m, heap, Put(m, p, Renamed(m[p]), objects), heap, p, end, got);
  }

  lemma PutPart(m: seq<Word>, heap: Heap, p: nat, objects: seq<Word>, i: nat)
    requires i < |objects| && p + 1 + |objects| <= |m| && m[p].inline && IsPort(m[p].name) && |objects| == m[p].number
    ensures var m' := Put(m, p, Renamed(m[p]), objects);
      PartSound(m', heap, p, i) && Part(m', heap, p, i) == Rights(objects[..i], ReceivedName(m[p].name))
  {
    var m' := Put(m, p, Renamed(m[p]), objects);
    PutParts(m, p, Renamed(m[p]), objects);
    assert m'[p + 1..p + 1 + i] == objects[..i];
  }

  lemma PutDone(m: seq<Word>, heap: Heap, p: nat, objects: seq<Word>, end: nat)
    requires InlinePorts(m, p, end) && |objects| == m[p].number
    ensures var m' := Put(m, p, Renamed(m[p]), objects);
      && Entered(m, m', p) && ItemDone(m', heap, p, end)
      && ItemGives(m', heap, p, end) == Rights(objects, ReceivedName(m[p].name))
  {
    PutParts(m, p, Renamed(m[p]), objects);
    PortLength(m[p]);
    PortLength(Renamed(m[p]));
  }

  lemma Both<T>(held: multiset<T>, second: multiset<T>, between: multiset<T>, first: multiset<T>, start: multiset<T>)
    requires held + second == between && between + first == start
    ensures held + (first + second) == start
  {
    forall x ensures (held + (first + second))[x] == start[x] {
      assert (held + second)[x] == between[x] && (between + first)[x] == start[x];
    }
  }

  lemma Regroup<T>(a: multiset<T>, b: multiset<T>, c: multiset<T>)
    ensures a + b + c == a + (c + b)
  {}

  lemma Cancel<T>(a: multiset<T>, b: multiset<T>, x: multiset<T>)
    requires a + x == b + x
    ensures a == b
  {
    forall y ensures a[y] == b[y] {
      assert (a + x)[y] == (b + x)[y];
    }
  }

  lemma Larger<T>(owed: multiset<T>, part: multiset<T>, start: multiset<T>)
    requires owed <= start
    ensures owed + part <= start + part
  {}

  lemma Grown<T>(held: multiset<T>, held0: multiset<T>, start: multiset<T>, got: multiset<T>, more: multiset<T>,
                 carries: bool)
    requires held == held0 + more && held0 == start + got && (!carries ==> held == held0)
    ensures held == start + (got + more) && (!carries ==> got + more == got)
  {
    if !carries {
      Cancel(more, multiset{}, held0);
    }
  }

  lemma Refund<T>(held: multiset<T>, owed: multiset<T>, part: multiset<T>, start: multiset<T>)
    requires held + (owed + part) == start + part
    ensures held + owed == start
  {
    forall x ensures (held + owed)[x] == start[x] {
      assert (held + (owed + part))[x] == (start + part)[x];
    }
  }
}
