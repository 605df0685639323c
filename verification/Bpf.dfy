/**
  * The BPF machine of device/net_io.c: bpf_validate, bpf_do_filter and bpf_eq.
  * A program is an array of instructions whose first is a flag word and is never executed.
  */
module Bpf {
  import opened Options

  type u32 = x: int | 0 <= x < 0x1_0000_0000
  type u8 = x: int | 0 <= x < 0x100

  const MEMWORDS: nat := 16     // BPF_MEMWORDS
  const BUFLEN: nat := 4095     // NET_RCV_MAX
  const MAX_KEYS: nat := 4      // N_NET_HASH_KEYS

  datatype Insn = Insn(code: nat, jt: u8, jf: u8, k: u32)

  // The instruction codes: class, size, mode, operation and operand or-ed together.
  const RET_K: nat := 0x06
  const RET_A: nat := 0x16
  const RET_MATCH: nat := 0x1e
  const KEY: nat := 0x17
  const ST: nat := 0x02
  const STX: nat := 0x03
  const LD_MEM: nat := 0x60
  const LDX_MEM: nat := 0x61
  const JA: nat := 0x05
  const DIV_X: nat := 0x3c
  const DIV_K: nat := 0x34

  /** BPF_CLASS: 0 LD, 1 LDX, 2 ST, 3 STX, 4 ALU, 5 JMP, 6 RET, 7 MISC. */
  function Class(code: nat): nat { code % 8 }

  function Signed(k: u32): int { if k < 0x8000_0000 then k else k - 0x1_0000_0000 }

  // ---------------------------------------------------------------- the packet

  /** A header of `hlen` bytes and the data after it; memory around them can be read. */
  datatype Packet = Packet(wirelen: u32, hlen: u32, header: int -> u8, data: int -> u8)

  /** The `n` bytes at offset `k`: in the header if they end there, else in the data, else nowhere. */
  function Byte(p: Packet, k: u32, n: nat, i: int): u8 {
    if k + n <= p.hlen then p.header(k + i) else p.data(k - p.hlen + i)
  }

  function LoadWord(p: Packet, k: u32): Option<u32> {
    if k + 4 <= p.hlen || k + 4 <= BUFLEN then
      Some(0x100_0000 * Byte(p, k, 4, 0) + 0x1_0000 * Byte(p, k, 4, 1) + 0x100 * Byte(p, k, 4, 2) + Byte(p, k, 4, 3))
    else None
  }

  function LoadHalf(p: Packet, k: u32): Option<u32> {
    if k + 2 <= p.hlen || k + 2 <= BUFLEN then Some(0x100 * Byte(p, k, 2, 0) + Byte(p, k, 2, 1)) else None
  }

  /** A byte is a `char`, which is signed. */
  function LoadByte(p: Packet, k: u32): Option<u32> {
    if k < p.hlen || k < BUFLEN then
      var b := Byte(p, k, 1, 0);
      Some(if b < 0x80 then b else b + 0xffff_ff00)
    else None
  }

  // ---------------------------------------------------------------- arithmetic

  function Add(a: u32, b: u32): u32 { (a + b) % 0x1_0000_0000 }

  function Power2(n: nat): nat { if n == 0 then 1 else 2 * Power2(n - 1) }

  lemma PowerPositive(n: nat)
    ensures Power2(n) > 0
  {}

  /** The bits that are set in both. */
  function And(a: nat, b: nat): (r: nat)
    ensures r <= a && r <= b
  {
    if a == 0 || b == 0 then 0 else 2 * And(a / 2, b / 2) + (if a % 2 == 1 && b % 2 == 1 then 1 else 0)
  }

  lemma {:induction false} OrFits(a: nat, b: nat, n: nat)
    requires a < Power2(n) && b < Power2(n)
    ensures a + b - And(a, b) < Power2(n)
  {
    if n > 0 && a != 0 && b != 0 {
      OrFits(a / 2, b / 2, n - 1);
    }
  }

  lemma Power32()
    ensures Power2(32) == 0x1_0000_0000
  {
    assert Power2(8) == 0x100;
    assert Power2(16) == 0x1_0000;
    assert Power2(24) == 0x100_0000;
  }

  function Or(a: u32, b: u32): u32 {
    Power32();
    OrFits(a, b, 32);
    a + b - And(a, b)
  }

  predicate BitSet(n: nat, i: nat) { if i == 0 then n % 2 == 1 else BitSet(n / 2, i - 1) }

  /** A bit of the conjunction is set if it is set in both numbers. */
  lemma {:induction false} AndBits(a: nat, b: nat, i: nat)
    ensures BitSet(And(a, b), i) <==> BitSet(a, i) && BitSet(b, i)
    decreases i
  {
    if a == 0 || b == 0 {
      NoBits(i);
    } else if i > 0 {
      AndBits(a / 2, b / 2, i - 1);
    }
  }

  lemma {:induction false} NoBits(i: nat)
    ensures !BitSet(0, i)
  {
    if i > 0 {
      NoBits(i - 1);
    }
  }

  /** A bit of the disjunction is set if it is set in either number. */
  lemma {:induction false} OrBits(a: nat, b: nat, i: nat)
    ensures a + b - And(a, b) >= 0 && (BitSet(a + b - And(a, b), i) <==> BitSet(a, i) || BitSet(b, i))
    decreases i
  {
    if a == 0 || b == 0 {
      NoBits(i);
    } else if i > 0 {
      OrBits(a / 2, b / 2, i - 1);
      assert (a + b - And(a, b)) / 2 == a / 2 + b / 2 - And(a / 2, b / 2);
    }
  }

  /** Shift counts are taken modulo 32, as the processor does. */
  function ShiftLeft(a: u32, n: u32): u32 { a * Power2(n % 32) % 0x1_0000_0000 }

  function ShiftRight(a: u32, n: u32): u32 {
    PowerPositive(n % 32);
    Quotient(a, Power2(n % 32))
  }

  function Quotient(a: nat, d: nat): (q: nat)
    requires d > 0
    ensures q <= a && q * d <= a < q * d + d
  {
    if a < d then 0 else 1 + Quotient(a - d, d)
  }

  /** The instructions of class ALU on the accumulator and an operand. */
  function Alu(code: nat, a: u32, b: u32): Option<u32> {
    match code / 0x10 * 0x10
    case 0x00 => Some(Add(a, b))
    case 0x10 => Some((a - b) % 0x1_0000_0000)
    case 0x20 => Some(a * b % 0x1_0000_0000)
    case 0x30 => if b == 0 then None else Some(Quotient(a, b))
    case 0x40 => Some(Or(a, b))
    case 0x50 => Some(And(a, b))
    case 0x60 => Some(ShiftLeft(a, b))
    case 0x70 => Some(ShiftRight(a, b))
    case _ => None
  }

  /** The comparisons of class JMP; None is no instruction. */
  function Test(code: nat, a: u32, b: u32): Option<bool> {
    match code / 0x10 * 0x10
    case 0x10 => Some(a == b)
    case 0x20 => Some(a > b)
    case 0x30 => Some(a >= b)
    case 0x40 => Some(And(a, b) != 0)
    case _ => None
  }

  // ---------------------------------------------------------------- one instruction

  datatype State = State(pc: int, a: u32, x: u32, mem: seq<u32>)

  /** Why a run ends: nothing matched, a length is returned, or the sessions are to be searched. */
  datatype End = Reject | Return(length: u32) | Search(keys: seq<u32>, length: u32)

  datatype Step = Goto(next: State) | Stop(end: End)

  function AtMost(k: u32, wirelen: u32): (r: u32)
    ensures r <= wirelen
  {
    if k <= wirelen then k else wirelen
  }

  /** Loads into the accumulator. */
  function Load(i: Insn, s: State, p: Packet): Option<u32>
    requires |s.mem| == MEMWORDS && (i.code == LD_MEM ==> i.k < MEMWORDS)
  {
    match i.code
    case 0x20 => LoadWord(p, i.k)
    case 0x28 => LoadHalf(p, i.k)
    case 0x30 => LoadByte(p, i.k)
    case 0x40 => LoadWord(p, Add(s.x, i.k))
    case 0x48 => LoadHalf(p, Add(s.x, i.k))
    case 0x50 => LoadByte(p, Add(s.x, i.k))
    case 0x80 => Some(p.wirelen)
    case 0x00 => Some(i.k)
    case 0x60 => Some(s.mem[i.k])
    case _ => None
  }

  /** Loads into the index register. */
  function LoadIndex(i: Insn, s: State, p: Packet): Option<u32>
    requires |s.mem| == MEMWORDS && (i.code == LDX_MEM ==> i.k < MEMWORDS)
  {
    match i.code
    case 0x81 => Some(p.wirelen)
    case 0xb1 => if i.k < p.hlen || i.k < BUFLEN then Some(Byte(p, i.k, 1, 0) % 0x10 * 4) else None
    case 0x01 => Some(i.k)
    case 0x61 => Some(s.mem[i.k])
    case _ => None
  }

  /** The scratch index of an instruction that uses one is a scratch index. */
  predicate IndexOk(i: Insn) {
    i.code in {ST, STX, LD_MEM, LDX_MEM} ==> i.k < MEMWORDS
  }

  function Forward(s: State, d: int): State { s.(pc := s.pc + 1 + d) }

  function Jump(i: Insn, s: State): Step {
    if i.code == JA then Goto(Forward(s, Signed(i.k)))
    else if i.code % 16 == 5 || i.code % 16 == 13 then
      match Test(i.code, s.a, if i.code % 16 == 5 then i.k else s.x)
      case Some(yes) => Goto(Forward(s, if yes then i.jt else i.jf))
      case None => Stop(Reject)
    else Stop(Reject)
  }

  function Compute(i: Insn, s: State): Option<u32> {
    if i.code == 0x84 then Some((0x1_0000_0000 - s.a as int) % 0x1_0000_0000)
    else if i.code < 0x80 && i.code % 16 == 4 then Alu(i.code, s.a, i.k)
    else if i.code < 0x80 && i.code % 16 == 12 then Alu(i.code, s.a, s.x)
    else None
  }

  /** One turn of the loop of bpf_do_filter. */
  function Execute(i: Insn, s: State, p: Packet): Step
    requires |s.mem| == MEMWORDS && IndexOk(i) && (i.code == RET_MATCH ==> i.jt <= MAX_KEYS)
  {
    match Class(i.code)
    case 0 => (match Load(i, s, p) case Some(v) => Goto(Forward(s.(a := v), 0)) case None => Stop(Reject))
    case 1 => (match LoadIndex(i, s, p) case Some(v) => Goto(Forward(s.(x := v), 0)) case None => Stop(Reject))
    case 2 => if i.code == ST then Goto(Forward(s.(mem := s.mem[i.k := s.a]), 0)) else Stop(Reject)
    case 3 => if i.code == STX then Goto(Forward(s.(mem := s.mem[i.k := s.x]), 0)) else Stop(Reject)
    case 4 => (match Compute(i, s) case Some(v) => Goto(Forward(s.(a := v), 0)) case None => Stop(Reject))
    case 5 => Jump(i, s)
    case 6 =>
      if i.code == RET_K then Stop(Return(AtMost(i.k, p.wirelen)))
      else if i.code == RET_A then Stop(Return(AtMost(s.a, p.wirelen)))
      else if i.code == RET_MATCH then Stop(Search(s.mem[..i.jt], AtMost(i.k, p.wirelen)))
      else Stop(Reject)
    case _ =>
      if i.code == 0x07 then Goto(Forward(s.(x := s.a), 0))
      else if i.code == 0x87 then Goto(Forward(s.(a := s.x), 0))
      else Stop(Reject)
  }

  // ---------------------------------------------------------------- what the validator accepts

  /** Jumps stay inside the program. */
  predicate JumpOk(f: seq<Insn>, i: nat)
    requires i < |f|
  {
    Class(f[i].code) == 5 ==>
      if f[i].code / 0x10 % 0x10 == 0 then i + 1 + Signed(f[i].k) < |f|
      else i + 1 + f[i].jt < |f| && i + 1 + f[i].jf < |f|
  }

  /** Stores, and loads in memory mode, use a scratch word. */
  predicate MemOk(i: Insn) {
    Class(i.code) == 2 || (Class(i.code) == 0 && i.code / 0x20 % 8 == 3) ==> 0 <= Signed(i.k) < MEMWORDS
  }

  predicate DivOk(i: Insn) { i.code == DIV_K ==> i.k != 0 }

  predicate KeysFollow(f: seq<Insn>, i: nat, n: nat) {
    i + n < |f| && forall j :: i < j <= i + n ==> f[j].code == KEY
  }

  /** A match instruction is followed by its one to four keys. */
  predicate MatchOk(f: seq<Insn>, i: nat)
    requires i < |f|
  {
    f[i].code == RET_MATCH ==> 1 <= f[i].jt <= MAX_KEYS && KeysFollow(f, i, f[i].jt)
  }

  predicate InsnOk(f: seq<Insn>, i: nat)
    requires i < |f|
  {
    JumpOk(f, i) && MemOk(f[i]) && DivOk(f[i]) && MatchOk(f, i)
  }

  /** The only match instruction among the first `n` is at `m`; there is none if `m` is 0. */
  predicate OnlyMatch(f: seq<Insn>, n: nat, m: nat)
    requires n <= |f|
  {
    && (forall i :: 1 <= i < n && f[i].code == RET_MATCH ==> i == m)
    && (m != 0 ==> m < n && f[m].code == RET_MATCH)
  }

  ghost predicate Accepted(f: seq<Insn>) {
    && |f| > 0 && Class(f[|f| - 1].code) == 6
    && (forall i :: 1 <= i < |f| ==> InsnOk(f, i))
    && exists m: nat :: OnlyMatch(f, |f|, m)
  }

  /** The loop of bpf_validate over the keys of a match instruction. */
  method CheckKeys(f: seq<Insn>, i: nat, n: nat) returns (ok: bool)
    requires i + n < |f|
    ensures ok == KeysFollow(f, i, n)
  {
    var j := 1;
    while j <= n
      invariant 1 <= j <= n + 1 && forall l :: i < l < i + j ==> f[l].code == KEY
    {
      if f[i + j].code != KEY {
        return false;
      }
      j := j + 1;
    }
    return true;
  }

  /** bpf_validate: 0 for a bad program, else 1, or 2 if it has a match instruction, which is at `m`. */
  method Validate(f: seq<Insn>) returns (r: nat, m: nat)
    requires |f| > 0
    ensures r == if !Accepted(f) then 0 else if m == 0 then 1 else 2
    ensures r != 0 ==> OnlyMatch(f, |f|, m)
  {
    m := 0;
    var i := 1;
    while i < |f|
      invariant 1 <= i && (i <= |f| || i == 1)
      invariant forall j :: 1 <= j < i ==> InsnOk(f, j)
      invariant OnlyMatch(f, i, m)
    {
      var at := i;
      if !JumpOk(f, i) || !MemOk(f[i]) || !DivOk(f[i]) {
        assert !InsnOk(f, i);
        return 0, m;
      }
      if f[i].code == RET_MATCH {
        if m != 0 || f[i].jt == 0 || f[i].jt > MAX_KEYS {
          assert f[i].jt == 0 || f[i].jt > MAX_KEYS ==> !InsnOk(f, i);
          assert m != 0 ==> forall n: nat :: OnlyMatch(f, |f|, n) ==> n == i && n == m;
          return 0, m;
        }
        i := i + f[i].jt;
        if i + 1 > |f| {
          assert !InsnOk(f, at);
          return 0, m;
        }
        var ok := CheckKeys(f, at, f[at].jt);
        if !ok {
          assert !InsnOk(f, at);
          return 0, m;
        }
        m := at;
      }
      i := i + 1;
    }
    r := if Class(f[|f| - 1].code) != 6 then 0 else if m == 0 then 1 else 2;
  }

  // ---------------------------------------------------------------- runs

  /** Not established by the validator: no jump goes back, and every scratch index is in range. */
  predicate Tame(f: seq<Insn>) {
    forall i :: 1 <= i < |f| ==> IndexOk(f[i]) && (f[i].code == JA ==> Signed(f[i].k) >= 0)
  }

  ghost predicate Runnable(f: seq<Insn>) { |f| >= 2 && Accepted(f) && Tame(f) }

  predicate Inside(f: seq<Insn>, s: State) { 1 <= s.pc < |f| && |s.mem| == MEMWORDS }

  /** Every step of a valid program goes forward and stays in the code, so it never runs off the end. */
  lemma Progress(f: seq<Insn>, s: State, p: Packet)
    requires Runnable(f) && Inside(f, s)
    ensures IndexOk(f[s.pc]) && (f[s.pc].code == RET_MATCH ==> f[s.pc].jt <= MAX_KEYS)
    ensures var e := Execute(f[s.pc], s, p);
      match e
      case Goto(next) => s.pc < next.pc && Inside(f, next)
      case Stop(end) => !end.Reject? ==> end.length <= p.wirelen
  {
    assert InsnOk(f, s.pc);
  }

  /** The validator also accepts jumps back: exactly these make a step of an accepted program not go forward. */
  lemma BackJumps(f: seq<Insn>, s: State, p: Packet)
    requires Accepted(f) && Inside(f, s) && IndexOk(f[s.pc])
    ensures f[s.pc].code == RET_MATCH ==> f[s.pc].jt <= MAX_KEYS
    ensures var e := Execute(f[s.pc], s, p);
      (e.Goto? && e.next.pc <= s.pc) <==> (f[s.pc].code == JA && Signed(f[s.pc].k) < 0)
  {
    assert InsnOk(f, s.pc);
  }

  /** What bpf_do_filter ends with. */
  function Run(f: seq<Insn>, s: State, p: Packet): End
    requires Runnable(f) && Inside(f, s)
    decreases |f| - s.pc
  {
    Progress(f, s, p);
    match Execute(f[s.pc], s, p)
    case Goto(next) => Run(f, next, p)
    case Stop(end) => end
  }

  /** How many instructions it executes. */
  function Steps(f: seq<Insn>, s: State, p: Packet): nat
    requires Runnable(f) && Inside(f, s)
    decreases |f| - s.pc
  {
    Progress(f, s, p);
    match Execute(f[s.pc], s, p)
    case Goto(next) => 1 + Steps(f, next, p)
    case Stop(_) => 1
  }

  function Start(mem: seq<u32>): State { State(1, 0, 0, mem) }

  lemma {:induction false} StepsBounded(f: seq<Insn>, s: State, p: Packet)
    requires Runnable(f) && Inside(f, s)
    ensures 1 <= Steps(f, s, p) <= |f| - s.pc
    ensures var end := Run(f, s, p); !end.Reject? ==> end.length <= p.wirelen
    decreases |f| - s.pc
  {
    Progress(f, s, p);
    var e := Execute(f[s.pc], s, p);
    if e.Goto? {
      StepsBounded(f, e.next, p);
    }
  }

  /** The loop of bpf_do_filter, for any contents of the scratch memory it starts with. */
  method DoFilter(f: seq<Insn>, p: Packet, mem: seq<u32>) returns (end: End, steps: nat)
    requires Runnable(f) && |mem| == MEMWORDS
    ensures end == Run(f, Start(mem), p) && steps <= |f| - 1
    ensures !end.Reject? ==> end.length <= p.wirelen
  {
    var s := Start(mem);
    StepsBounded(f, s, p);
    steps := 0;
    while s.pc < |f|
      invariant Inside(f, s) && Run(f, s, p) == Run(f, Start(mem), p)
      invariant steps + Steps(f, s, p) == Steps(f, Start(mem), p)
      decreases |f| - s.pc
    {
      Progress(f, s, p);
      steps := steps + 1;
      match Execute(f[s.pc], s, p)
      case Goto(next) => s := next;
      case Stop(e) => return e, steps;
    }
    assert false;
  }

  // ---------------------------------------------------------------- programs that differ in their keys

  /** bpf_eq: the same instructions, except that keys may differ. */
  predicate Equal(f: seq<Insn>, g: seq<Insn>) {
    |f| == |g| && forall i :: 0 <= i < |f| ==> f[i] == g[i] || f[i].code == g[i].code == KEY
  }

  /** The loop of bpf_eq. */
  method CheckEqual(f: seq<Insn>, g: seq<Insn>) returns (equal: bool)
    requires |f| == |g|
    ensures equal == Equal(f, g)
  {
    var i := 0;
    while i < |f|
      invariant 0 <= i <= |f| && forall j :: 0 <= j < i ==> f[j] == g[j] || f[j].code == g[j].code == KEY
    {
      if f[i] != g[i] && !(f[i].code == KEY && g[i].code == KEY) {
        return false;
      }
      i := i + 1;
    }
    return true;
  }

  /** Programs that are equal up to their keys do the same, search for the same keys included. */
  lemma {:induction false} EqualRuns(f: seq<Insn>, g: seq<Insn>, s: State, p: Packet)
    requires Equal(f, g) && Runnable(f) && Runnable(g) && Inside(f, s)
    ensures Run(f, s, p) == Run(g, s, p)
    decreases |f| - s.pc
  {
    Progress(f, s, p);
    Progress(g, s, p);
    var e := Execute(f[s.pc], s, p);
    assert e == Execute(g[s.pc], s, p);
    if e.Goto? {
      EqualRuns(f, g, e.next, p);
    }
  }

  // ---------------------------------------------------------------- two programs and what they mean

  /** Accept `k` bytes of the packets whose half-word at `at` has the value, and no other packet. */
  function TypeFilter(flags: Insn, at: u32, value: u32, k: u32): seq<Insn> {
    [flags, Insn(0x28, 0, 0, at), Insn(0x15, 0, 1, value), Insn(RET_K, 0, 0, k), Insn(RET_K, 0, 0, 0)]
  }

  lemma TypeFilterMeans(flags: Insn, at: u32, value: u32, k: u32, p: Packet, mem: seq<u32>)
    requires |mem| == MEMWORDS
    ensures var f := TypeFilter(flags, at, value, k);
      && Runnable(f)
      && Run(f, Start(mem), p) ==
           match LoadHalf(p, at)
           case None => Reject
           case Some(v) => Return(if v == value then AtMost(k, p.wirelen) else 0)
  {
    var f := TypeFilter(flags, at, value, k);
    assert OnlyMatch(f, |f|, 0);
    var s1 := Start(mem);
    Progress(f, s1, p);
    var e1 := Execute(f[1], s1, p);
    if e1.Goto? {
      var s2 := e1.next;
      Progress(f, s2, p);
      var s3 := Execute(f[2], s2, p).next;
      Progress(f, s3, p);
      assert Run(f, s3, p) == Execute(f[s3.pc], s3, p).end;
    }
  }

  /** Look up the session whose key is the word at `at`, and give it `k` bytes. */
  function SessionFilter(flags: Insn, at: u32, key: u32, k: u32): seq<Insn> {
    [flags, Insn(0x20, 0, 0, at), Insn(ST, 0, 0, 0), Insn(RET_MATCH, 1, 0, k), Insn(KEY, 0, 0, key),
     Insn(RET_K, 0, 0, 0)]
  }

  lemma SessionFilterMeans(flags: Insn, at: u32, key: u32, k: u32, p: Packet, mem: seq<u32>)
    requires |mem| == MEMWORDS
    ensures var f := SessionFilter(flags, at, key, k);
      && Runnable(f)
      && Run(f, Start(mem), p) ==
           match LoadWord(p, at)
           case None => Reject
           case Some(v) => Search([v], AtMost(k, p.wirelen))
  {
    var f := SessionFilter(flags, at, key, k);
    assert OnlyMatch(f, |f|, 3);
    var s1 := Start(mem);
    Progress(f, s1, p);
    var e1 := Execute(f[1], s1, p);
    if e1.Goto? {
      var s2 := e1.next;
      Progress(f, s2, p);
      var s3 := Execute(f[2], s2, p).next;
      Progress(f, s3, p);
      assert s3.mem[..1] == [s2.a];
      assert Run(f, s3, p) == Execute(f[s3.pc], s3, p).end;
    }
  }
}
