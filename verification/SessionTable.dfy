/**
  * Sessions that share one program (device/net_io.c): a header keeps the program once and a hash
  * table of the sessions' keys.  A bucket is a ring whose first entry the table points to; here it
  * is the sequence of its entries from that one on.
  */
module SessionTable {
  import opened Options
  import opened Bpf

  const HASH_SIZE: nat := 256   // NET_HASH_SIZE
  const HEADERS: nat := 4       // N_NET_HASH

  /** A session: where its packets go, its keys, and the program it was installed with. */
  datatype Entry = Entry(port: nat, keys: seq<u32>, program: seq<Insn>)

  /** A header is in use if it has a number of keys. */
  datatype Header = Header(keyCount: nat, refCount: int, table: seq<seq<Entry>>, filter: seq<Insn>, priority: int)

  // ---------------------------------------------------------------- bpf_hash

  function Sum(keys: seq<u32>): nat {
    if keys == [] then 0 else Sum(keys[..|keys| - 1]) + keys[|keys| - 1]
  }

  function Hash(keys: seq<u32>): (h: nat)
    ensures h < HASH_SIZE
  {
    Sum(keys) % HASH_SIZE
  }

  /** bpf_hash: the sum wraps around, which does not change the bucket. */
  method HashKeys(keys: seq<u32>) returns (h: nat)
    ensures h == Hash(keys)
  {
    var hval: u32 := 0;
    var i := 0;
    while i < |keys|
      invariant 0 <= i <= |keys| && hval % HASH_SIZE == Sum(keys[..i]) % HASH_SIZE
    {
      assert keys[..i + 1][..i] == keys[..i];
      WrapKeepsBucket(hval, keys[i], Sum(keys[..i]));
      hval := Add(hval, keys[i]);
      i := i + 1;
    }
    assert keys[..i] == keys;
    h := hval % HASH_SIZE;
  }

  lemma WrapKeepsBucket(hval: u32, key: u32, sum: nat)
    requires hval % HASH_SIZE == sum % HASH_SIZE
    ensures Add(hval, key) % HASH_SIZE == (sum + key) % HASH_SIZE
  {}

  // ---------------------------------------------------------------- bpf_match

  /** The place of the first entry with these keys, or the length of the bucket. */
  function First(b: seq<Entry>, keys: seq<u32>): (j: nat)
    ensures j <= |b| && (j < |b| ==> b[j].keys == keys) && forall l :: 0 <= l < j ==> b[l].keys != keys
  {
    if b == [] || b[0].keys == keys then 0
    else
      var j := First(b[1..], keys);
      assert forall l :: 1 <= l < 1 + j ==> b[l] == b[1..][l - 1];
      1 + j
  }

  /** bpf_match: the place in bucket Hash(keys) of the session with these keys. */
  function Match(h: Header, keys: seq<u32>): (r: Option<nat>)
    requires |h.table| == HASH_SIZE
    ensures r.Some? ==> r.value < |h.table[Hash(keys)]|
  {
    var b := h.table[Hash(keys)];
    if |keys| != h.keyCount || First(b, keys) == |b| then None else Some(First(b, keys))
  }

  /** The loops of bpf_match: over the ring, and over the keys of an entry. */
  method FindMatch(h: Header, keys: seq<u32>) returns (r: Option<nat>)
    requires |h.table| == HASH_SIZE && forall e :: e in h.table[Hash(keys)] ==> |e.keys| == h.keyCount
    ensures r == Match(h, keys)
  {
    if |keys| != h.keyCount {
      return None;
    }
    var b := h.table[Hash(keys)];
    var j := 0;
    while j < |b|
      invariant 0 <= j <= |b| && forall l :: 0 <= l < j ==> b[l].keys != keys
    {
      var i := 0;
      while i < h.keyCount && keys[i] == b[j].keys[i]
        invariant 0 <= i <= h.keyCount && forall l :: 0 <= l < i ==> keys[l] == b[j].keys[l]
      {
        i := i + 1;
      }
      if i == h.keyCount {
        assert b[j].keys == keys;
        return Some(j);
      }
      j := j + 1;
    }
    return None;
  }

  // ---------------------------------------------------------------- the invariant

  function Total(table: seq<seq<Entry>>): nat {
    if table == [] then 0 else Total(table[..|table| - 1]) + |table[|table| - 1]|
  }

  lemma {:induction false} TotalUpdate(table: seq<seq<Entry>>, i: nat, b: seq<Entry>)
    requires i < |table|
    ensures Total(table[i := b]) == Total(table) - |table[i]| + |b|
  {
    var n := |table| - 1;
    if i < n {
      assert table[i := b][..n] == table[..n][i := b];
      TotalUpdate(table[..n], i, b);
    } else {
      assert table[i := b][..n] == table[..n];
    }
  }

  lemma {:induction false} TotalAtLeast(table: seq<seq<Entry>>, i: nat)
    requires i < |table|
    ensures |table[i]| <= Total(table)
  {
    if i < |table| - 1 {
      TotalAtLeast(table[..|table| - 1], i);
    }
  }

  lemma {:induction false} TotalZero(table: seq<seq<Entry>>)
    requires forall i :: 0 <= i < |table| ==> table[i] == []
    ensures Total(table) == 0
  {
    if table != [] {
      TotalZero(table[..|table| - 1]);
    }
  }

  /** The keys that follow a program's match instruction. */
  function KeysOf(f: seq<Insn>, m: nat): seq<u32>
    requires m < |f| && m + f[m].jt < |f|
  {
    seq<u32>(f[m].jt, j requires 0 <= j < f[m].jt => f[m + 1 + j].k)
  }

  /** The keys of a session are those of its program. */
  ghost predicate SessionOk(e: Entry) {
    exists m: nat :: IsMatch(e.program, m) && e.keys == KeysOf(e.program, m)
  }

  /** The program's one match instruction is at `m`. */
  ghost predicate IsMatch(f: seq<Insn>, m: nat) {
    1 <= m < |f| && 1 <= f[m].jt < |f| - m && OnlyMatch(f, |f|, m)
  }

  /** What bpf_validate finds in a program with a match instruction. */
  lemma AcceptedMatch(f: seq<Insn>, m: nat)
    requires Accepted(f) && m != 0 && OnlyMatch(f, |f|, m)
    ensures IsMatch(f, m)
  {
    assert InsnOk(f, m);
  }

  /** The entry belongs in bucket `i` of the header. */
  ghost predicate EntryOk(h: Header, i: nat, e: Entry) {
    && 1 <= |e.keys| == h.keyCount && Hash(e.keys) == i
    && SessionOk(e) && Equal(h.filter, e.program)
  }

  /** A header in use has a program with that many keys. */
  ghost predicate FilterOk(f: seq<Insn>, n: nat) { exists m: nat :: IsMatch(f, m) && f[m].jt == n }

  ghost predicate HeaderOk(h: Header) {
    && |h.table| == HASH_SIZE && h.refCount == Total(h.table) && (h.keyCount > 0 ==> FilterOk(h.filter, h.keyCount))
    && forall i, e {:trigger EntryOk(h, i, e)} :: 0 <= i < HASH_SIZE && e in h.table[i] ==> EntryOk(h, i, e)
  }

  /** At rest a header is free exactly when it has no sessions. */
  ghost predicate AtRest(h: Header) { HeaderOk(h) && (h.keyCount == 0 <==> Total(h.table) == 0) }

  ghost predicate HasKeys(h: Header, keys: seq<u32>) {
    exists i, j :: 0 <= i < |h.table| && 0 <= j < |h.table[i]| && h.table[i][j].keys == keys
  }

  /** One bucket is searched, but nothing in the whole table is missed. */
  lemma MatchSearchesAll(h: Header, keys: seq<u32>)
    requires HeaderOk(h)
    ensures Match(h, keys).Some? <==> HasKeys(h, keys)
  {
    var b := h.table[Hash(keys)];
    if Match(h, keys).Some? {
      assert h.table[Hash(keys)][First(b, keys)].keys == keys;
    }
    if HasKeys(h, keys) {
      var i, j :| 0 <= i < |h.table| && 0 <= j < |h.table[i]| && h.table[i][j].keys == keys;
      assert EntryOk(h, i, h.table[i][j]);
    }
  }

  // ---------------------------------------------------------------- sharing a program

  /** What a packet is decided: the session at a place of a bucket, and how much of the packet it gets. */
  datatype Choice = Choice(bucket: nat, place: nat, length: u32)

  function Decide(h: Header, end: End): Option<Choice>
    requires |h.table| == HASH_SIZE
  {
    match end
    case Search(keys, length) =>
      (match Match(h, keys)
       case Some(j) => Some(Choice(Hash(keys), j, length))
       case None => None)
    case _ => None
  }

  /** The constants behind the match instruction at `m` are these keys. */
  ghost predicate AsksAt(f: seq<Insn>, m: nat, keys: seq<u32>) {
    IsMatch(f, m) && |keys| == f[m].jt && forall i | 0 <= i < |keys| :: keys[i] == f[m + 1 + i].k
  }

  ghost predicate AsksFor(e: Entry, keys: seq<u32>) { exists m: nat :: AsksAt(e.program, m, keys) }

  lemma AsksAtKeys(f: seq<Insn>, m: nat, keys: seq<u32>)
    requires IsMatch(f, m)
    ensures AsksAt(f, m, keys) <==> keys == KeysOf(f, m)
  {}

  lemma OneMatch(f: seq<Insn>, m: nat, n: nat)
    requires IsMatch(f, m) && IsMatch(f, n)
    ensures m == n
  {}

  lemma AsksForKeys(e: Entry, keys: seq<u32>)
    requires SessionOk(e)
    ensures AsksFor(e, keys) <==> e.keys == keys
  {
    var m: nat :| IsMatch(e.program, m) && e.keys == KeysOf(e.program, m);
    AsksAtKeys(e.program, m, keys);
    if AsksFor(e, keys) {
      var n: nat :| AsksAt(e.program, n, keys);
      OneMatch(e.program, m, n);
    }
  }

  /** A shared program finds a session exactly if it searches for the constants in the program of one of them. */
  lemma DecidedByPrograms(h: Header, end: End)
    requires HeaderOk(h)
    ensures Decide(h, end).Some? <==>
      && end.Search?
      && exists i, j :: 0 <= i < |h.table| && 0 <= j < |h.table[i]| && AsksFor(h.table[i][j], end.keys)
    ensures Decide(h, end).Some? ==>
      var c := Decide(h, end).value;
      && c.bucket < |h.table| && c.place < |h.table[c.bucket]| && c.length == end.length
      && AsksFor(h.table[c.bucket][c.place], end.keys)
  {
    if end.Search? {
      MatchSearchesAll(h, end.keys);
      forall i, j | 0 <= i < |h.table| && 0 <= j < |h.table[i]|
        ensures AsksFor(h.table[i][j], end.keys) <==> h.table[i][j].keys == end.keys
      {
        assert EntryOk(h, i, h.table[i][j]);
        AsksForKeys(h.table[i][j], end.keys);
      }
    }
  }

  /** bpf_do_filter on a header of sessions. */
  function Filter(h: Header, p: Packet, mem: seq<u32>): Option<Choice>
    requires |h.table| == HASH_SIZE && Runnable(h.filter) && |mem| == MEMWORDS
  {
    Decide(h, Run(h.filter, Start(mem), p))
  }

  /** The session with its own program and a table to itself. */
  function Alone(e: Entry): Header {
    Header(|e.keys|, 1, seq(HASH_SIZE, i => if i == Hash(e.keys) then [e] else []), e.program, 0)
  }

  /**
    * Sharing a program preserves its meaning: the shared table selects the session, with a length,
    * exactly when the session's own program run alone does, and no earlier session has the same keys.
    */
  lemma SharingPreservesMeaning(h: Header, i: nat, j: nat, p: Packet, mem: seq<u32>, length: u32)
    requires HeaderOk(h) && i < HASH_SIZE && j < |h.table[i]| && |mem| == MEMWORDS
    requires Runnable(h.filter) && Runnable(h.table[i][j].program)
    ensures var e := h.table[i][j];
      Filter(h, p, mem) == Some(Choice(i, j, length))
      <==> Filter(Alone(e), p, mem) == Some(Choice(i, 0, length)) && First(h.table[i], e.keys) == j
  {
    var e := h.table[i][j];
    assert EntryOk(h, i, e);
    EqualRuns(h.filter, e.program, Start(mem), p);
    assert Alone(e).table[i] == [e];
  }

  /** With distinct keys every session sees exactly what it would see alone. */
  lemma DistinctKeysShare(h: Header, i: nat, j: nat, p: Packet, mem: seq<u32>, length: u32)
    requires HeaderOk(h) && i < HASH_SIZE && j < |h.table[i]| && |mem| == MEMWORDS
    requires Runnable(h.filter) && Runnable(h.table[i][j].program)
    requires forall l :: 0 <= l < |h.table[i]| && l != j ==> h.table[i][l].keys != h.table[i][j].keys
    ensures Filter(h, p, mem) == Some(Choice(i, j, length))
      <==> Filter(Alone(h.table[i][j]), p, mem) == Some(Choice(i, 0, length))
  {
    SharingPreservesMeaning(h, i, j, p, mem, length);
  }
}
