/**
  * What every instruction of bpf_do_filter does (device/net_io.c), by the bytes of the packet, by arithmetic modulo
  * 2^32 and by bits; and that a run is a chain of such steps.
  */
module BpfLaws {
  import opened Options
  import opened Bpf

  // ---------------------------------------------------------------- what an instruction should do

  /** Byte `i` of the `n` bytes at offset `k`: of the header if all of them are in it, else of the data after it. */
  function Octet(p: Packet, k: nat, n: nat, i: nat): int {
    if k + n <= p.hlen then p.header(k + i) else p.data(k - p.hlen + i)
  }

  predicate InReach(p: Packet, k: nat, n: nat) { k + n <= p.hlen || k + n <= 4095 }

  /** The step goes on at the next instruction, with these registers and scratch words. */
  predicate Continues(s: State, e: Step, a: int, x: int, mem: seq<u32>) {
    e.Goto? && e.next.pc == s.pc + 1 && e.next.a == a && e.next.x == x && e.next.mem == mem
  }

  /** A big-endian word, half-word or byte at an offset goes to the accumulator; a byte is a signed char. */
  ghost predicate WordLaw(s: State, p: Packet, e: Step, k: nat) {
    if InReach(p, k, 4) then
      Continues(s, e, ((Octet(p, k, 4, 0) * 0x100 + Octet(p, k, 4, 1)) * 0x100 + Octet(p, k, 4, 2)) * 0x100
        + Octet(p, k, 4, 3), s.x, s.mem)
    else e == Stop(Reject)
  }

  ghost predicate HalfLaw(s: State, p: Packet, e: Step, k: nat) {
    if InReach(p, k, 2) then Continues(s, e, Octet(p, k, 2, 0) * 0x100 + Octet(p, k, 2, 1), s.x, s.mem)
    else e == Stop(Reject)
  }

  ghost predicate ByteLaw(s: State, p: Packet, e: Step, k: nat) {
    if InReach(p, k, 1) then
      var b := Octet(p, k, 1, 0);
      Continues(s, e, if b < 0x80 then b else 0x1_0000_0000 - 0x100 + b, s.x, s.mem)
    else e == Stop(Reject)
  }

  ghost predicate LoadLaw(i: Insn, s: State, p: Packet, e: Step)
    requires |s.mem| == 16
  {
    var ind := (s.x + i.k) % 0x1_0000_0000;
    match i.code
    case 0x20 => WordLaw(s, p, e, i.k)
    case 0x28 => HalfLaw(s, p, e, i.k)
    case 0x30 => ByteLaw(s, p, e, i.k)
    case 0x40 => WordLaw(s, p, e, ind)
    case 0x48 => HalfLaw(s, p, e, ind)
    case 0x50 => ByteLaw(s, p, e, ind)
    case 0x80 => Continues(s, e, p.wirelen, s.x, s.mem)
    case 0x00 => Continues(s, e, i.k, s.x, s.mem)
    case 0x60 => i.k < 16 && Continues(s, e, s.mem[i.k], s.x, s.mem)
    case 0x81 => Continues(s, e, s.a, p.wirelen, s.mem)
    case 0x01 => Continues(s, e, s.a, i.k, s.mem)
    case 0x61 => i.k < 16 && Continues(s, e, s.a, s.mem[i.k], s.mem)
    case 0xb1 =>
      if InReach(p, i.k, 1) then Continues(s, e, s.a, 4 * (Octet(p, i.k, 1, 0) % 16), s.mem) else e == Stop(Reject)
    case 0x02 => i.k < 16 && Continues(s, e, s.a, s.x, s.mem[i.k := s.a])
    case 0x03 => i.k < 16 && Continues(s, e, s.a, s.x, s.mem[i.k := s.x])
    case 0x07 => Continues(s, e, s.a, s.a, s.mem)
    case 0x87 => Continues(s, e, s.x, s.x, s.mem)
    case _ => false
  }

  /** The result of an operation on two 32-bit numbers. */
  ghost predicate AluLaw(op: nat, a: u32, b: u32, r: int) {
    && 0 <= r < 0x1_0000_0000
    && match op
       case 0 => (r - (a + b)) % 0x1_0000_0000 == 0
       case 1 => (r + b - a) % 0x1_0000_0000 == 0
       case 2 => (r - a * b) % 0x1_0000_0000 == 0
       case 3 => r * b <= a < r * b + b
       case 4 => forall j: nat :: BitSet(r, j) <==> BitSet(a, j) || BitSet(b, j)
       case 5 => forall j: nat :: BitSet(r, j) <==> BitSet(a, j) && BitSet(b, j)
       case 6 => forall j: nat :: BitSet(r, j) <==> j < 32 && j >= b % 32 && BitSet(a, j - b % 32)
       case 7 => forall j: nat :: BitSet(r, j) <==> BitSet(a, j + b % 32)
       case _ => false
  }

  /** ADD, SUB, MUL, DIV, OR, AND, LSH and RSH with a constant or the index register, and NEG. */
  ghost predicate ComputeLaw(i: Insn, s: State, e: Step) {
    if i.code == 0x84 then
      e.Goto? && Continues(s, e, e.next.a, s.x, s.mem) && (e.next.a + s.a) % 0x1_0000_0000 == 0
    else
      var op, b := i.code / 16, if i.code % 16 == 4 then i.k else s.x;
      if op == 3 && b == 0 then e == Stop(Reject)
      else e.Goto? && Continues(s, e, e.next.a, s.x, s.mem) && AluLaw(op, s.a, b, e.next.a)
  }

  /** JEQ, JGT, JGE and JSET. */
  ghost predicate Compares(op: nat, a: u32, b: u32) {
    match op
    case 1 => a == b
    case 2 => a > b
    case 3 => a >= b
    case _ => ShareBit(a, b)
  }

  ghost predicate ShareBit(a: nat, b: nat) { exists j: nat :: BitSet(a, j) && BitSet(b, j) }

  /** An unconditional jump goes by its constant; the others by the first distance exactly if the comparison holds. */
  ghost predicate JumpLaw(i: Insn, s: State, e: Step) {
    && e.Goto? && e.next == s.(pc := e.next.pc)
    && if i.code == 0x05 then e.next.pc == s.pc + 1 + (if i.k < 0x8000_0000 then i.k else i.k - 0x1_0000_0000)
       else
         var b := if i.code % 16 == 5 then i.k else s.x;
         e.next.pc == s.pc + 1 + if Compares(i.code / 16, s.a, b) then i.jt else i.jf
  }

  /** No more than the packet has is returned. */
  ghost predicate ReturnLaw(i: Insn, s: State, p: Packet, e: Step)
    requires |s.mem| == 16
  {
    var n := if i.code == 0x16 then s.a else i.k;
    var length := if n <= p.wirelen then n else p.wirelen;
    if i.code == 0x1e then i.jt <= 16 && e == Stop(Search(s.mem[..i.jt], length)) else e == Stop(Return(length))
  }

  predicate IsLoad(code: nat) {
    code in {0x20, 0x28, 0x30, 0x40, 0x48, 0x50, 0x80, 0x00, 0x60, 0x81, 0x01, 0x61, 0xb1, 0x02, 0x03, 0x07, 0x87}
  }

  predicate IsAlu(code: nat) { code == 0x84 || (code < 0x80 && (code % 16 == 4 || code % 16 == 12)) }

  predicate IsJump(code: nat) { code == 0x05 || (0x10 <= code < 0x50 && (code % 16 == 5 || code % 16 == 13)) }

  predicate IsReturn(code: nat) { code == 0x06 || code == 0x16 || code == 0x1e }

  /** One step of the machine; a code that is none of these ends the run. */
  ghost predicate Law(i: Insn, s: State, p: Packet, e: Step)
    requires |s.mem| == 16
  {
    if IsLoad(i.code) then LoadLaw(i, s, p, e)
    else if IsAlu(i.code) then ComputeLaw(i, s, e)
    else if IsJump(i.code) then JumpLaw(i, s, e)
    else if IsReturn(i.code) then ReturnLaw(i, s, p, e)
    else e == Stop(Reject)
  }

  // ---------------------------------------------------------------- loads, stores and moves

  lemma WordIs(p: Packet, k: u32)
    ensures LoadWord(p, k) ==
      if InReach(p, k, 4) then
        Some(((Octet(p, k, 4, 0) * 0x100 + Octet(p, k, 4, 1)) * 0x100 + Octet(p, k, 4, 2)) * 0x100 + Octet(p, k, 4, 3))
      else None
  {}

  lemma HalfIs(p: Packet, k: u32)
    ensures LoadHalf(p, k) ==
      if InReach(p, k, 2) then Some(Octet(p, k, 2, 0) * 0x100 + Octet(p, k, 2, 1)) else None
  {}

  lemma ByteIs(p: Packet, k: u32)
    ensures LoadByte(p, k) ==
      if InReach(p, k, 1) then
        Some(if Octet(p, k, 1, 0) < 0x80 then Octet(p, k, 1, 0) else 0x1_0000_0000 - 0x100 + Octet(p, k, 1, 0))
      else None
  {}

  lemma LoadMeets(i: Insn, s: State, p: Packet)
    requires |s.mem| == 16 && IndexOk(i) && i.code in {0x20, 0x28, 0x30, 0x40, 0x48, 0x50}
    ensures LoadLaw(i, s, p, Execute(i, s, p))
  {
    var k := if i.code < 0x40 then i.k else Add(s.x, i.k);
    if i.code == 0x20 || i.code == 0x40 {
      WordIs(p, k);
    } else if i.code == 0x28 || i.code == 0x48 {
      HalfIs(p, k);
    } else {
      ByteIs(p, k);
    }
  }

  lemma RegisterMeets(i: Insn, s: State, p: Packet)
    requires |s.mem| == 16 && IndexOk(i)
    requires i.code in {0x80, 0x00, 0x60, 0x81, 0x01, 0x61, 0xb1, 0x02, 0x03, 0x07, 0x87}
    ensures LoadLaw(i, s, p, Execute(i, s, p))
  {}

  // ---------------------------------------------------------------- arithmetic

  lemma AddMeets(a: u32, b: u32)
    ensures AluLaw(0, a, b, (a + b) % 0x1_0000_0000)
  {
    Congruent(a + b);
  }

  lemma SubMeets(a: u32, b: u32)
    ensures AluLaw(1, a, b, (a - b) % 0x1_0000_0000)
  {
    Congruent(a - b);
    var r := (a - b) % 0x1_0000_0000;
    assert r + b - a == r - (a - b);
  }

  lemma Congruent(n: int)
    ensures 0 <= n % 0x1_0000_0000 < 0x1_0000_0000 && (n % 0x1_0000_0000 - n) % 0x1_0000_0000 == 0
  {}

  lemma MulMeets(a: u32, b: u32)
    ensures AluLaw(2, a, b, a * b % 0x1_0000_0000)
  {
    Congruent(a * b);
  }

  lemma DivMeets(a: u32, b: u32)
    requires b != 0
    ensures AluLaw(3, a, b, Quotient(a, b))
  {}

  lemma OrMeets(a: u32, b: u32)
    ensures AluLaw(4, a, b, Or(a, b))
  {
    forall j: nat ensures BitSet(Or(a, b), j) <==> BitSet(a, j) || BitSet(b, j) {
      OrBits(a, b, j);
    }
  }

  lemma AndMeets(a: u32, b: u32)
    ensures AluLaw(5, a, b, And(a, b))
  {
    forall j: nat ensures BitSet(And(a, b), j) <==> BitSet(a, j) && BitSet(b, j) {
      AndBits(a, b, j);
    }
  }

  /** Multiplying by a power of two moves the bits up. */
  lemma {:induction false} BitsUp(a: nat, n: nat, j: nat)
    ensures BitSet(a * Power2(n), j) <==> j >= n && BitSet(a, j - n)
    decreases n
  {
    if n > 0 {
      var h := a * Power2(n - 1);
      Doubling(a, Power2(n - 1));
      if j == 0 {
        assert (2 * h) % 2 == 0;
      } else {
        assert (2 * h) / 2 == h;
        BitsUp(a, n - 1, j - 1);
      }
    }
  }

  lemma Doubling(a: nat, p: nat)
    ensures a * (2 * p) == 2 * (a * p)
  {}

  /** Cutting a number at `w` bits drops the others. */
  lemma {:induction false} BitsCut(x: nat, w: nat, j: nat)
    ensures Power2(w) > 0 && (BitSet(x % Power2(w), j) <==> j < w && BitSet(x, j))
    decreases w
  {
    PowerPositive(w);
    if w == 0 {
      NoBits(j);
    } else {
      HalfCut(x, Power2(w - 1));
      if j > 0 {
        BitsCut(x / 2, w - 1, j - 1);
      } else {
        BitsCut(x / 2, w - 1, 0);
      }
    }
  }

  lemma HalfCut(x: nat, m: nat)
    requires m > 0
    ensures x % (2 * m) == 2 * (x / 2 % m) + x % 2
    ensures x % (2 * m) / 2 == x / 2 % m && x % (2 * m) % 2 == x % 2
  {
    var h := x / 2;
    var q, r := h / m, h % m;
    assert h == q * m + r;
    assert x == 2 * h + x % 2;
    assert 2 * (q * m) == q * (2 * m);
    CutIs(x, 2 * m, q, 2 * r + x % 2);
  }

  lemma CutIs(x: nat, d: nat, q: nat, r: nat)
    requires r < d && x == q * d + r
    ensures x % d == r
  {
    var k := x / d;
    assert x == k * d + x % d;
    Ordered(k + 1, q, d);
    Ordered(q + 1, k, d);
  }

  lemma Ordered(x: nat, y: nat, d: nat)
    ensures x <= y ==> x * d <= y * d
  {}

  lemma LshMeets(a: u32, b: u32)
    ensures AluLaw(6, a, b, ShiftLeft(a, b))
  {
    Power32();
    var n := b % 32;
    forall j: nat ensures BitSet(ShiftLeft(a, b), j) <==> j < 32 && j >= n && BitSet(a, j - n) {
      BitsCut(a * Power2(n), 32, j);
      BitsUp(a, n, j);
    }
  }

  /** Dividing by a power of two moves the bits down. */
  lemma {:induction false} BitsDown(a: nat, n: nat, j: nat)
    ensures Power2(n) > 0 && (BitSet(Quotient(a, Power2(n)), j) <==> BitSet(a, j + n))
    decreases n
  {
    PowerPositive(n);
    if n == 0 {
      QuotientIs(a, 1, a);
    } else {
      PowerPositive(n - 1);
      var p := Power2(n - 1);
      var q := Quotient(a / 2, p);
      HalfQuotient(a, p, q);
      QuotientIs(a, 2 * p, q);
      BitsDown(a / 2, n - 1, j);
    }
  }

  lemma HalfQuotient(a: nat, p: nat, q: nat)
    requires p > 0 && q * p <= a / 2 < q * p + p
    ensures q * (2 * p) <= a < q * (2 * p) + 2 * p
  {
    assert q * (2 * p) == 2 * (q * p);
  }

  lemma QuotientIs(a: nat, d: nat, q: nat)
    requires d > 0 && q * d <= a < q * d + d
    ensures Quotient(a, d) == q
  {
    var k := Quotient(a, d);
    SameQuotient(a, d, k, q);
  }

  lemma SameQuotient(a: nat, d: nat, k: nat, q: nat)
    requires d > 0 && q * d <= a < q * d + d && k * d <= a < k * d + d
    ensures k == q
  {
    Ordered(k + 1, q, d);
    Ordered(q + 1, k, d);
  }

  lemma RshMeets(a: u32, b: u32)
    ensures AluLaw(7, a, b, ShiftRight(a, b))
  {
    forall j: nat ensures BitSet(ShiftRight(a, b), j) <==> BitSet(a, j + b % 32) {
      BitsDown(a, b % 32, j);
    }
  }

  lemma AluMeets(op: nat, code: nat, a: u32, b: u32)
    requires op < 8 && code / 16 == op
    ensures if op == 3 && b == 0 then Alu(code, a, b) == None
            else Alu(code, a, b).Some? && AluLaw(op, a, b, Alu(code, a, b).value)
  {
    assert code / 0x10 * 0x10 == 0x10 * op;
    match op
    case 0 => AddMeets(a, b);
    case 1 => SubMeets(a, b);
    case 2 => MulMeets(a, b);
    case 3 =>
      if b != 0 {
        DivMeets(a, b);
      }
    case 4 => OrMeets(a, b);
    case 5 => AndMeets(a, b);
    case 6 => LshMeets(a, b);
    case 7 => RshMeets(a, b);
  }

  lemma NegMeets(a: u32)
    ensures ((0x1_0000_0000 - a as int) % 0x1_0000_0000 + a) % 0x1_0000_0000 == 0
  {}

  lemma AluOp(code: nat)
    requires code < 0x80
    ensures code / 16 < 8
  {}

  lemma AluClass(code: nat)
    requires IsAlu(code)
    ensures Class(code) == 4
  {}

  lemma ComputeIs(i: Insn, s: State, p: Packet)
    requires |s.mem| == 16 && IndexOk(i) && Class(i.code) == 4
    ensures Execute(i, s, p) == match Compute(i, s)
      case Some(v) => Goto(State(s.pc + 1, v, s.x, s.mem))
      case None => Stop(Reject)
  {}

  lemma ComputeAlu(i: Insn, s: State)
    requires i.code < 0x80 && (i.code % 16 == 4 || i.code % 16 == 12)
    ensures Compute(i, s) == Alu(i.code, s.a, if i.code % 16 == 4 then i.k else s.x)
  {}

  lemma ComputeMeets(i: Insn, s: State, p: Packet)
    requires |s.mem| == 16 && IndexOk(i) && IsAlu(i.code)
    ensures ComputeLaw(i, s, Execute(i, s, p))
  {
    AluClass(i.code);
    ComputeIs(i, s, p);
    if i.code == 0x84 {
      NegMeets(s.a);
    } else {
      ComputeAlu(i, s);
      AluOp(i.code);
      AluMeets(i.code / 16, i.code, s.a, if i.code % 16 == 4 then i.k else s.x);
    }
  }

  // ---------------------------------------------------------------- jumps and ends

  lemma {:induction false} SomeBit(n: nat) returns (j: nat)
    requires n > 0
    ensures BitSet(n, j)
  {
    if n % 2 == 1 {
      j := 0;
    } else {
      j := SomeBit(n / 2);
      j := j + 1;
    }
  }

  lemma JsetMeets(a: u32, b: u32)
    ensures And(a, b) != 0 <==> ShareBit(a, b)
  {
    if And(a, b) != 0 {
      var j := SomeBit(And(a, b));
      AndBits(a, b, j);
    } else {
      forall j: nat ensures !(BitSet(a, j) && BitSet(b, j)) {
        AndBits(a, b, j);
        NoBits(j);
      }
    }
  }

  lemma TestMeets(op: nat, code: nat, a: u32, b: u32)
    requires 1 <= op <= 4 && code / 16 == op
    ensures Test(code, a, b).Some? && (Test(code, a, b).value <==> Compares(op, a, b))
  {
    assert code / 0x10 * 0x10 == 0x10 * op;
    if op == 4 {
      JsetMeets(a, b);
    }
  }

  lemma JumpMeets(i: Insn, s: State, p: Packet)
    requires |s.mem| == 16 && IndexOk(i) && IsJump(i.code)
    ensures JumpLaw(i, s, Execute(i, s, p))
  {
    if i.code != 0x05 {
      TestMeets(i.code / 16, i.code, s.a, if i.code % 16 == 5 then i.k else s.x);
    }
  }

  lemma ReturnMeets(i: Insn, s: State, p: Packet)
    requires |s.mem| == 16 && IndexOk(i) && IsReturn(i.code) && (i.code == RET_MATCH ==> i.jt <= MAX_KEYS)
    ensures ReturnLaw(i, s, p, Execute(i, s, p))
  {}

  lemma OtherMeets(i: Insn, s: State, p: Packet)
    requires |s.mem| == 16 && IndexOk(i) && (i.code == RET_MATCH ==> i.jt <= MAX_KEYS)
    requires !IsLoad(i.code) && !IsAlu(i.code) && !IsJump(i.code) && !IsReturn(i.code)
    ensures Execute(i, s, p) == Stop(Reject)
  {}

  /** Every step meets the law of its instruction. */
  lemma StepMeets(i: Insn, s: State, p: Packet)
    requires |s.mem| == 16 && IndexOk(i) && (i.code == RET_MATCH ==> i.jt <= MAX_KEYS)
    ensures Law(i, s, p, Execute(i, s, p))
  {
    if IsLoad(i.code) {
      if i.code in {0x20, 0x28, 0x30, 0x40, 0x48, 0x50} {
        LoadMeets(i, s, p);
      } else {
        RegisterMeets(i, s, p);
      }
    } else if IsAlu(i.code) {
      ComputeMeets(i, s, p);
    } else if IsJump(i.code) {
      JumpMeets(i, s, p);
    } else if IsReturn(i.code) {
      ReturnMeets(i, s, p);
    } else {
      OtherMeets(i, s, p);
    }
  }

  // ---------------------------------------------------------------- the law leaves nothing open

  lemma {:induction false} BitsDetermine(a: nat, b: nat)
    requires forall j: nat :: BitSet(a, j) <==> BitSet(b, j)
    ensures a == b
    decreases a + b
  {
    assert BitSet(a, 0) <==> BitSet(b, 0);
    if a > 0 || b > 0 {
      forall j: nat ensures BitSet(a / 2, j) <==> BitSet(b / 2, j) {
        assert BitSet(a, j + 1) <==> BitSet(b, j + 1);
      }
      BitsDetermine(a / 2, b / 2);
    }
  }

  lemma RestDetermines(x: int, r: int, q: int)
    requires 0 <= r < 0x1_0000_0000 && 0 <= q < 0x1_0000_0000
    requires (r - x) % 0x1_0000_0000 == 0 && (q - x) % 0x1_0000_0000 == 0
    ensures r == q
  {}

  lemma AluDetermines(op: nat, a: u32, b: u32, r: int, q: int)
    requires AluLaw(op, a, b, r) && AluLaw(op, a, b, q) && (op == 3 ==> b != 0)
    ensures r == q
  {
    match op
    case 0 => RestDetermines(a + b, r, q);
    case 1 =>
      assert r + b - a == r - (a - b) && q + b - a == q - (a - b);
      RestDetermines(a - b, r, q);
    case 2 => RestDetermines(a * b, r, q);
    case 3 => SameQuotient(a, b, r, q);
    case _ => BitsDetermine(r, q);
  }

  /** There is one step only that meets the law. */
  lemma LawDetermines(i: Insn, s: State, p: Packet, e: Step, d: Step)
    requires |s.mem| == 16 && Law(i, s, p, e) && Law(i, s, p, d)
    ensures e == d
  {
    if IsLoad(i.code) {
      LoadDetermines(i, s, p, e, d);
    } else if IsAlu(i.code) {
      ComputeDetermines(i, s, e, d);
    }
  }

  lemma LoadDetermines(i: Insn, s: State, p: Packet, e: Step, d: Step)
    requires |s.mem| == 16 && LoadLaw(i, s, p, e) && LoadLaw(i, s, p, d)
    ensures e == d
  {}

  lemma ComputeDetermines(i: Insn, s: State, e: Step, d: Step)
    requires IsAlu(i.code) && ComputeLaw(i, s, e) && ComputeLaw(i, s, d)
    ensures e == d
  {
    if i.code == 0x84 {
      RestDetermines(-(s.a as int), e.next.a, d.next.a);
    } else {
      var op, b := i.code / 16, if i.code % 16 == 4 then i.k else s.x;
      if !(op == 3 && b == 0) {
        AluDetermines(op, s.a, b, e.next.a, d.next.a);
      }
    }
  }

  // ---------------------------------------------------------------- runs

  /** A chain of steps that meet their laws, from the first state to the end of the run. */
  ghost predicate Traced(f: seq<Insn>, p: Packet, tr: seq<State>, end: End) {
    && |tr| > 0 && (forall i | 0 <= i < |tr| :: Inside(f, tr[i]))
    && (forall i {:trigger tr[i]} | 0 <= i < |tr| - 1 :: Law(f[tr[i].pc], tr[i], p, Goto(tr[i + 1])))
    && Law(f[tr[|tr| - 1].pc], tr[|tr| - 1], p, Stop(end))
  }

  lemma TracedMore(f: seq<Insn>, p: Packet, s: State, tr: seq<State>, end: End)
    requires Traced(f, p, tr, end) && Inside(f, s) && Law(f[s.pc], s, p, Goto(tr[0]))
    ensures Traced(f, p, [s] + tr, end)
  {
    var all := [s] + tr;
    forall i | 0 <= i < |all| ensures Inside(f, all[i]) {
      if i > 0 {
        assert all[i] == tr[i - 1];
      }
    }
    forall i | 0 <= i < |all| - 1 ensures Law(f[all[i].pc], all[i], p, Goto(all[i + 1])) {
      if i > 0 {
        assert all[i] == tr[i - 1] && all[i + 1] == tr[i];
      }
    }
    assert all[|all| - 1] == tr[|tr| - 1];
  }

  /** A run is such a chain. */
  lemma {:induction false} RunTraced(f: seq<Insn>, s: State, p: Packet) returns (tr: seq<State>)
    requires Runnable(f) && Inside(f, s)
    ensures Traced(f, p, tr, Run(f, s, p)) && tr[0] == s
    decreases |f| - s.pc
  {
    Progress(f, s, p);
    StepMeets(f[s.pc], s, p);
    match Execute(f[s.pc], s, p)
    case Stop(end) => tr := [s];
    case Goto(next) =>
      var rest := RunTraced(f, next, p);
      tr := [s] + rest;
      TracedMore(f, p, s, rest, Run(f, next, p));
  }

  /** The loop of bpf_do_filter goes through such a chain, from the first instruction with both registers zero. */
  method DoFilterTraced(f: seq<Insn>, p: Packet, mem: seq<u32>) returns (end: End, ghost tr: seq<State>)
    requires Runnable(f) && |mem| == 16
    ensures Traced(f, p, tr, end) && tr[0] == State(1, 0, 0, mem)
  {
    tr := RunTraced(f, Start(mem), p);
    var steps;
    end, steps := DoFilter(f, p, mem);
  }

  // ---------------------------------------------------------------- a program and what it means

  lemma {:induction false} MaskBits(w: nat, j: nat)
    ensures Power2(w) > 0 && (BitSet(Power2(w) - 1, j) <==> j < w)
    decreases w
  {
    PowerPositive(w);
    if w == 0 {
      NoBits(j);
    } else {
      PowerPositive(w - 1);
      var h := Power2(w - 1) - 1;
      assert Power2(w) - 1 == 2 * h + 1;
      if j > 0 {
        MaskBits(w - 1, j - 1);
      }
    }
  }

  /** The number made of the `w` bits from bit `n` on. */
  function Field(x: nat, n: nat, w: nat): nat
    decreases n, w
  {
    if n > 0 then Field(x / 2, n - 1, w)
    else if w > 0 then 2 * Field(x / 2, 0, w - 1) + x % 2
    else 0
  }

  lemma {:induction false} FieldBits(x: nat, n: nat, w: nat, j: nat)
    ensures BitSet(Field(x, n, w), j) <==> j < w && BitSet(x, j + n)
    decreases n, w
  {
    if n > 0 {
      FieldBits(x / 2, n - 1, w, j);
    } else if w == 0 {
      NoBits(j);
    } else if j > 0 {
      FieldBits(x / 2, 0, w - 1, j - 1);
    }
  }

  lemma ShiftedBit(x: u32, n: u32, j: nat)
    requires n < 32
    ensures BitSet(ShiftRight(x, n), j) <==> BitSet(x, j + n)
  {
    BitsDown(x, n, j);
  }

  lemma FieldBit(x: u32, n: u32, w: nat, r: nat, m: nat, j: nat)
    requires w <= 32 && m == Mask(w) && (BitSet(r, j) <==> BitSet(x, j + n))
    ensures BitSet(And(r, m), j) <==> BitSet(Field(x, n, w), j)
  {
    AndBits(r, m, j);
    MaskBits(w, j);
    FieldBits(x, n, w, j);
  }

  lemma FieldIs(x: u32, n: u32, w: nat)
    requires n < 32 && w <= 32
    ensures And(ShiftRight(x, n), Mask(w)) == Field(x, n, w)
  {
    var r := And(ShiftRight(x, n), Mask(w));
    forall j: nat ensures BitSet(r, j) <==> BitSet(Field(x, n, w), j) {
      ShiftedBit(x, n, j);
      FieldBit(x, n, w, ShiftRight(x, n), Mask(w), j);
    }
    BitsDetermine(r, Field(x, n, w));
  }

  lemma {:induction false} PowerGrows(n: nat, m: nat)
    requires n <= m
    ensures 0 < Power2(n) <= Power2(m)
    decreases m - n
  {
    PowerPositive(n);
    if n < m {
      PowerGrows(n + 1, m);
    }
  }

  /** The mask of the low `w` bits. */
  function Mask(w: nat): (m: u32)
    requires w <= 32
    ensures Power2(w) > 0 && m == Power2(w) - 1
  {
    PowerGrows(w, 32);
    Power32();
    Power2(w) - 1
  }

  /**
    * Accept `k` bytes of the packets in which a field is above a value: the `w` bits from bit `n` of the half-word
    * that is `off` bytes behind the end of the internet header, whose length in words is in the low bits of byte `at`.
    */
  function FieldFilter(flags: Insn, at: u32, off: u32, n: u32, w: nat, v: u32, k: u32): seq<Insn>
    requires w <= 32
  {
    [flags, Insn(0xb1, 0, 0, at), Insn(0x48, 0, 0, off), Insn(0x74, 0, 0, n), Insn(0x54, 0, 0, Mask(w)),
     Insn(0x25, 0, 1, v), Insn(RET_K, 0, 0, k), Insn(RET_K, 0, 0, 0)]
  }

  lemma FieldRunnable(flags: Insn, at: u32, off: u32, n: u32, w: nat, v: u32, k: u32)
    requires w <= 32
    ensures Runnable(FieldFilter(flags, at, off, n, w, v, k))
  {
    assert OnlyMatch(FieldFilter(flags, at, off, n, w, v, k), 8, 0);
  }

  lemma GoesOn(f: seq<Insn>, s: State, p: Packet, t: State)
    requires Runnable(f) && Inside(f, s) && Law(f[s.pc], s, p, Goto(t))
    ensures Inside(f, t) && Run(f, s, p) == Run(f, t, p)
  {
    Progress(f, s, p);
    StepMeets(f[s.pc], s, p);
    LawDetermines(f[s.pc], s, p, Execute(f[s.pc], s, p), Goto(t));
  }

  lemma Ends(f: seq<Insn>, s: State, p: Packet, end: End)
    requires Runnable(f) && Inside(f, s) && Law(f[s.pc], s, p, Stop(end))
    ensures Run(f, s, p) == end
  {
    Progress(f, s, p);
    StepMeets(f[s.pc], s, p);
    LawDetermines(f[s.pc], s, p, Execute(f[s.pc], s, p), Stop(end));
  }

  lemma RshGoes(n: u32, s: State, p: Packet)
    requires |s.mem| == 16
    ensures Law(Insn(0x74, 0, 0, n), s, p, Goto(State(s.pc + 1, ShiftRight(s.a, n), s.x, s.mem)))
  {
    RshMeets(s.a, n);
  }

  lemma AndGoes(m: u32, s: State, p: Packet)
    requires |s.mem| == 16
    ensures Law(Insn(0x54, 0, 0, m), s, p, Goto(State(s.pc + 1, And(s.a, m), s.x, s.mem)))
  {
    AndMeets(s.a, m);
  }

  lemma JgtGoes(v: u32, s: State, p: Packet)
    requires |s.mem| == 16
    ensures Law(Insn(0x25, 0, 1, v), s, p, Goto(s.(pc := if s.a > v then s.pc + 1 else s.pc + 2)))
  {}

  lemma ReturnGoes(k: u32, s: State, p: Packet)
    requires |s.mem| == 16
    ensures Law(Insn(0x06, 0, 0, k), s, p, Stop(Return(Min(k, p.wirelen))))
  {}

  lemma MshGoes(at: u32, s: State, p: Packet)
    requires |s.mem| == 16
    ensures if InReach(p, at, 1) then
              Law(Insn(0xb1, 0, 0, at), s, p, Goto(State(s.pc + 1, s.a, 4 * (Octet(p, at, 1, 0) % 16), s.mem)))
            else Law(Insn(0xb1, 0, 0, at), s, p, Stop(Reject))
  {}

  lemma HalfGoes(off: u32, s: State, p: Packet)
    requires |s.mem| == 16
    ensures var j := (s.x + off) % 0x1_0000_0000;
      if InReach(p, j, 2) then
        var half := Octet(p, j, 2, 0) * 0x100 + Octet(p, j, 2, 1);
        Law(Insn(0x48, 0, 0, off), s, p, Goto(State(s.pc + 1, half, s.x, s.mem)))
      else Law(Insn(0x48, 0, 0, off), s, p, Stop(Reject))
  {}

  /** The comparison and the two returns. */
  lemma FieldCompared(f: seq<Insn>, s: State, p: Packet, v: u32, k: u32)
    requires Runnable(f) && |f| == 8 && s.pc == 5 && Inside(f, s)
    requires f[5..] == [Insn(0x25, 0, 1, v), Insn(0x06, 0, 0, k), Insn(0x06, 0, 0, 0)]
    ensures Run(f, s, p) == Return(if s.a > v then Min(k, p.wirelen) else 0)
  {
    assert f[5] == f[5..][0] && f[6] == f[5..][1] && f[7] == f[5..][2];
    var t := s.(pc := if s.a > v then 6 else 7);
    JgtGoes(v, s, p);
    GoesOn(f, s, p, t);
    ReturnGoes(f[t.pc].k, t, p);
    Ends(f, t, p, Return(Min(f[t.pc].k, p.wirelen)));
  }

  /** The shift and the mask. */
  lemma FieldCut(f: seq<Insn>, s: State, p: Packet, n: u32, w: nat)
    requires Runnable(f) && |f| == 8 && n < 32 && w <= 32 && s.pc == 3 && Inside(f, s)
    requires f[3] == Insn(0x74, 0, 0, n) && f[4] == Insn(0x54, 0, 0, Mask(w))
    ensures Field(s.a, n, w) < 0x1_0000_0000
    ensures var t := State(5, Field(s.a, n, w), s.x, s.mem); Inside(f, t) && Run(f, s, p) == Run(f, t, p)
  {
    RshGoes(n, s, p);
    var s4 := State(4, ShiftRight(s.a, n), s.x, s.mem);
    GoesOn(f, s, p, s4);
    AndGoes(Mask(w), s4, p);
    GoesOn(f, s4, p, State(5, And(s4.a, Mask(w)), s.x, s.mem));
    FieldIs(s.a, n, w);
  }

  lemma FieldJudged(f: seq<Insn>, s: State, p: Packet, n: u32, w: nat, v: u32, k: u32)
    requires Runnable(f) && |f| == 8 && n < 32 && w <= 32 && s.pc == 3 && Inside(f, s)
    requires f[3] == Insn(0x74, 0, 0, n) && f[4] == Insn(0x54, 0, 0, Mask(w))
    requires f[5..] == [Insn(0x25, 0, 1, v), Insn(0x06, 0, 0, k), Insn(0x06, 0, 0, 0)]
    ensures Run(f, s, p) == Return(if Field(s.a, n, w) > v then Min(k, p.wirelen) else 0)
  {
    FieldCut(f, s, p, n, w);
    FieldCompared(f, State(5, Field(s.a, n, w), s.x, s.mem), p, v, k);
  }

  /** The indirect load. */
  lemma FieldLoaded(f: seq<Insn>, s: State, p: Packet, off: u32)
    requires Runnable(f) && |f| == 8 && s.pc == 2 && Inside(f, s) && f[2] == Insn(0x48, 0, 0, off)
    ensures var j := (s.x + off) % 0x1_0000_0000;
      if !InReach(p, j, 2) then Run(f, s, p) == Reject
      else
        var t := State(3, Octet(p, j, 2, 0) * 0x100 + Octet(p, j, 2, 1), s.x, s.mem);
        Inside(f, t) && Run(f, s, p) == Run(f, t, p)
  {
    var j := (s.x + off) % 0x1_0000_0000;
    HalfGoes(off, s, p);
    if !InReach(p, j, 2) {
      Ends(f, s, p, Reject);
    } else {
      GoesOn(f, s, p, State(3, Octet(p, j, 2, 0) * 0x100 + Octet(p, j, 2, 1), s.x, s.mem));
    }
  }

  /** The length of the internet header. */
  lemma FieldBegins(f: seq<Insn>, s: State, p: Packet, at: u32)
    requires Runnable(f) && |f| == 8 && s.pc == 1 && Inside(f, s) && f[1] == Insn(0xb1, 0, 0, at)
    ensures if !InReach(p, at, 1) then Run(f, s, p) == Reject
            else
              var t := State(2, s.a, 4 * (Octet(p, at, 1, 0) % 16), s.mem);
              Inside(f, t) && Run(f, s, p) == Run(f, t, p)
  {
    MshGoes(at, s, p);
    if !InReach(p, at, 1) {
      Ends(f, s, p, Reject);
    } else {
      GoesOn(f, s, p, State(2, s.a, 4 * (Octet(p, at, 1, 0) % 16), s.mem));
    }
  }

  /** A filter with an indirect load, a shift, a mask and JGT, for every packet. */
  lemma FieldFilterMeans(flags: Insn, at: u32, off: u32, n: u32, w: nat, v: u32, k: u32, p: Packet, mem: seq<u32>)
    requires |mem| == 16 && n < 32 && w <= 32
    ensures Runnable(FieldFilter(flags, at, off, n, w, v, k))
    ensures var end := Run(FieldFilter(flags, at, off, n, w, v, k), Start(mem), p);
      if !InReach(p, at, 1) then end == Reject
      else
        var j := (4 * (Octet(p, at, 1, 0) % 16) + off) % 0x1_0000_0000;
        if !InReach(p, j, 2) then end == Reject
        else
          var half := Octet(p, j, 2, 0) * 0x100 + Octet(p, j, 2, 1);
          end == Return(if Field(half, n, w) > v then Min(k, p.wirelen) else 0)
  {
    var f := FieldFilter(flags, at, off, n, w, v, k);
    FieldRunnable(flags, at, off, n, w, v, k);
    FieldBegins(f, Start(mem), p, at);
    if InReach(p, at, 1) {
      var s := State(2, 0, 4 * (Octet(p, at, 1, 0) % 16), mem);
      FieldLoaded(f, s, p, off);
      var j := (s.x + off) % 0x1_0000_0000;
      if InReach(p, j, 2) {
        FieldJudged(f, State(3, Octet(p, j, 2, 0) * 0x100 + Octet(p, j, 2, 1), s.x, mem), p, n, w, v, k);
      }
    }
  }

  // ---------------------------------------------------------------- the validator

  /** What an instruction must be, by its code and fields. */
  ghost predicate Sound(f: seq<Insn>, i: nat)
    requires i < |f|
  {
    var t := f[i];
    && (t.code % 8 == 5 && t.code / 16 % 16 == 0 ==>
          i + 1 + (if t.k < 0x8000_0000 then t.k else t.k - 0x1_0000_0000) < |f|)
    && (t.code % 8 == 5 && t.code / 16 % 16 != 0 ==> i + 1 + t.jt < |f| && i + 1 + t.jf < |f|)
    && (t.code % 8 == 2 || (t.code % 8 == 0 && t.code / 32 % 8 == 3) ==> t.k < 16)
    && (t.code == 0x34 ==> t.k != 0)
    && (t.code == 0x1e ==> 1 <= t.jt <= 4 && i + t.jt < |f| && forall j | i < j <= i + t.jt :: f[j].code == 0x17)
  }

  /** bpf_validate accepts a program exactly if it ends with a return, is sound, and has one match at most. */
  lemma AcceptedExactly(f: seq<Insn>)
    ensures Accepted(f) <==>
      && |f| > 0 && f[|f| - 1].code % 8 == 6
      && (forall i | 1 <= i < |f| :: Sound(f, i))
      && (forall i, j | 1 <= i < |f| && 1 <= j < |f| :: f[i].code == 0x1e && f[j].code == 0x1e ==> i == j)
  {
    if |f| > 0 {
      forall i | 1 <= i < |f| ensures Sound(f, i) <==> InsnOk(f, i) {
        SoundExactly(f, i);
      }
      if (forall i, j | 1 <= i < |f| && 1 <= j < |f| :: f[i].code == 0x1e && f[j].code == 0x1e ==> i == j) {
        if m :| 1 <= m < |f| && f[m].code == 0x1e {
          assert OnlyMatch(f, |f|, m);
        } else {
          assert OnlyMatch(f, |f|, 0);
        }
      }
    }
  }

  lemma SoundExactly(f: seq<Insn>, i: nat)
    requires i < |f|
    ensures Sound(f, i) <==> InsnOk(f, i)
  {}

  /** No step of an accepted program divides by a constant zero: with a constant DIV always goes on. */
  lemma NoConstantZero(f: seq<Insn>, s: State, p: Packet)
    requires Accepted(f) && Inside(f, s) && f[s.pc].code == 0x34
    ensures f[s.pc].k != 0 && Execute(f[s.pc], s, p).Goto?
    ensures var q := Execute(f[s.pc], s, p).next.a; q * f[s.pc].k <= s.a < q * f[s.pc].k + f[s.pc].k
  {
    AcceptedExactly(f);
    assert Sound(f, s.pc);
    ComputeMeets(f[s.pc], s, p);
  }
}
