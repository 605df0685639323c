/**
  * What every argument and operator of net_do_filter does (device/net_io.c), by the words of the stack and of the
  * packet; that a run is a chain of such steps; and what the chains of tests that end early decide.
  */
module CspfLaws {
  import opened Options
  import opened Cspf
  import B = Bpf
  import L = BpfLaws

  // ---------------------------------------------------------------- what an instruction should do

  /** The argument is `v`; it leaves the stack at `sp` and the filter at `at`. */
  ghost predicate Gives(f: seq<u16>, s: State, p: Packet, v: int, sp: int, at: nat)
    requires s.at < |f| && |s.stack| == 33
  {
    var arg := f[s.at] % 0x400;
    && at == (if arg == 1 then s.at + 2 else s.at + 1)
    && sp == (if arg == 0 || arg == 14 || arg == 15 then s.sp + 1 else s.sp)
    && if arg == 0 then 0 <= s.sp <= 32 && v == s.stack[s.sp]
       else if arg == 1 then s.at + 1 < |f| && v == f[s.at + 1]
       else if arg == 2 then v == 0
       else if arg == 14 then 0 <= s.sp <= 32 && s.stack[s.sp] < p.dataCount && v == p.data(s.stack[s.sp])
       else if arg == 15 then 0 <= s.sp <= 32 && s.stack[s.sp] < 32 && v == p.header(s.stack[s.sp])
       else if arg >= 992 then 0 <= s.sp + (arg - 992) <= 32 && v == s.stack[s.sp + (arg - 992)]
       else if arg >= 960 then v == p.header(arg - 960)
       else 16 <= arg < 16 + p.dataCount && v == p.data(arg - 16)
  }

  /** The argument ends the run: a word the packet does not have answers FALSE. */
  ghost predicate Refuses(f: seq<u16>, s: State, p: Packet, end: End)
    requires s.at < |f| && |s.stack| == 33
  {
    var arg := f[s.at] % 0x400;
    if arg == 0 then Outside(s.sp, end)
    else if arg == 1 then s.at + 1 >= |f| && end == OutsideFilter
    else if arg == 2 then false
    else if arg == 14 then
      Outside(s.sp, end) || (0 <= s.sp <= 32 && s.stack[s.sp] >= p.dataCount && end == Answer(false))
    else if arg == 15 then Outside(s.sp, end) || (0 <= s.sp <= 32 && s.stack[s.sp] >= 32 && end == Answer(false))
    else if arg >= 992 then Outside(s.sp + (arg - 992), end)
    else arg < 960 && (arg < 16 || arg - 16 >= p.dataCount) && end == Answer(false)
  }

  predicate Outside(sp: int, end: End) { (sp < 0 && end == BelowStack) || (sp > 32 && end == AboveStack) }

  /** What an operator puts in place of the top of the stack. */
  ghost predicate Replaces(op: nat, a: B.u32, b: B.u32, r: int) {
    && 0 <= r < 0x1_0000_0000
    && match op
       case 1 => r == if a == b then 1 else 0
       case 2 => r == if a < b then 1 else 0
       case 3 => r == if a <= b then 1 else 0
       case 4 => r == if a > b then 1 else 0
       case 5 => r == if a >= b then 1 else 0
       case 6 => forall j: nat :: B.BitSet(r, j) <==> B.BitSet(a, j) && B.BitSet(b, j)
       case 7 => forall j: nat :: B.BitSet(r, j) <==> B.BitSet(a, j) || B.BitSet(b, j)
       case 8 => forall j: nat :: B.BitSet(r, j) <==> B.BitSet(a, j) != B.BitSet(b, j)
       case 13 => r == if a == b then 0 else 1
       case 14 => forall j: nat :: B.BitSet(r, j) <==> j < 32 && j >= b % 32 && B.BitSet(a, j - b % 32)
       case 15 => forall j: nat :: B.BitSet(r, j) <==> j < 32 && B.BitSet(a, Min(j + b % 32, 31))
       case 16 => (r - (a + b)) % 0x1_0000_0000 == 0
       case 17 => (r + b - a) % 0x1_0000_0000 == 0
       case _ => false
  }

  /** COR, CAND, CNOR and CNAND: the answer if the top of the stack is, or is not, the argument. */
  ghost predicate Decides(op: nat, equal: bool, accept: bool) {
    || (op == 9 && equal && accept)
    || (op == 10 && !equal && !accept)
    || (op == 11 && equal && !accept)
    || (op == 12 && !equal && accept)
  }

  /** What the operator does with its argument. */
  ghost predicate Operates(op: nat, s: State, v: int, sp: int, at: nat, e: Step)
    requires |s.stack| == 33 && 0 <= v < 0x1_0000_0000
  {
    if op == 0 then
      if 0 <= sp - 1 <= 32 then e == Goto(State(at, sp - 1, s.stack[sp - 1 := v], s.shorts))
      else e.Stop? && Outside(sp - 1, e.end)
    else if op > 17 then e == Goto(State(at, sp, s.stack, s.shorts))
    else if !(0 <= sp <= 32) then e.Stop? && Outside(sp, e.end)
    else if 9 <= op <= 12 then
      match e
      case Stop(end) => end.Answer? && Decides(op, s.stack[sp] == v, end.accept)
      case Goto(t) =>
        t == State(at, sp + 1, s.stack, s.shorts + 1) && !Decides(op, s.stack[sp] == v, true) &&
        !Decides(op, s.stack[sp] == v, false)
    else
      && e.Goto? && |e.next.stack| == 33 && Replaces(op, s.stack[sp], v, e.next.stack[sp])
      && e.next == State(at, sp, s.stack[sp := e.next.stack[sp]], s.shorts)
  }

  /** One turn of the loop of net_do_filter. */
  ghost predicate Law(f: seq<u16>, s: State, p: Packet, e: Step)
    requires s.at < |f| && |s.stack| == 33
  {
    || (e.Stop? && Refuses(f, s, p, e.end))
    || exists v: B.u32, sp, at :: Gives(f, s, p, v, sp, at) && Operates(f[s.at] / 0x400, s, v, sp, at, e)
  }

  // ---------------------------------------------------------------- every step meets its law

  lemma ArgumentMeets(f: seq<u16>, s: State, p: Packet)
    requires s.at < |f| && |s.stack| == 33
    ensures match Fetch(f, s, p)
      case Value(v, sp, at) => Gives(f, s, p, v, sp, at)
      case Fails(end) => Refuses(f, s, p, end)
  {}

  lemma XorMeets(a: B.u32, b: B.u32)
    ensures Replaces(8, a, b, Xor(a, b))
  {
    forall j: nat ensures B.BitSet(Xor(a, b), j) <==> B.BitSet(a, j) != B.BitSet(b, j) {
      XorBits(a, b, j);
    }
  }

  lemma LogicMeets(op: nat, a: B.u32, b: B.u32)
    requires 6 <= op <= 8
    ensures Replaces(op, a, b, Combine(op, a, b))
  {
    if op == 6 {
      L.AndMeets(a, b);
    } else if op == 7 {
      L.OrMeets(a, b);
    } else {
      XorMeets(a, b);
    }
  }

  lemma SumMeets(op: nat, a: B.u32, b: B.u32)
    requires op == 16 || op == 17
    ensures Replaces(op, a, b, Combine(op, a, b))
  {
    if op == 16 {
      L.AddMeets(a, b);
    } else {
      L.SubMeets(a, b);
    }
  }

  /** A number has no bit at or above one that bounds it. */
  lemma {:induction false} NoHighBit(x: nat, w: nat, j: nat)
    requires x < B.Power2(w) && j >= w
    ensures !B.BitSet(x, j)
    decreases w
  {
    if w == 0 {
      B.NoBits(j);
    } else {
      NoHighBit(x / 2, w - 1, j - 1);
    }
  }

  /** Subtracting from all ones turns every bit round. */
  lemma {:induction false} Turned(x: nat, w: nat, j: nat)
    requires x < B.Power2(w)
    ensures B.BitSet(B.Power2(w) - 1 - x, j) <==> j < w && !B.BitSet(x, j)
    decreases w
  {
    if w == 0 {
      B.NoBits(j);
    } else {
      var y := B.Power2(w) - 1 - x;
      assert y % 2 == 1 - x % 2 && y / 2 == B.Power2(w - 1) - 1 - x / 2;
      if j > 0 {
        Turned(x / 2, w - 1, j - 1);
      }
    }
  }

  lemma Power31()
    ensures B.Power2(31) == 0x8000_0000
  {
    B.Power32();
  }

  lemma PositiveShifted(a: B.u32, m: nat, j: nat)
    requires a < 0x8000_0000
    ensures B.BitSet(a, j + m) <==> j < 32 && B.BitSet(a, Min(j + m, 31))
  {
    Power31();
    if j + m >= 31 {
      NoHighBit(a, 31, j + m);
      NoHighBit(a, 31, 31);
    }
  }

  lemma NegativeShifted(a: B.u32, m: nat, j: nat)
    requires a >= 0x8000_0000
    ensures j < 32 && !B.BitSet(0xffff_ffff - a, j + m) <==> j < 32 && B.BitSet(a, Min(j + m, 31))
  {
    B.Power32();
    Power31();
    var c := 0xffff_ffff - a;
    assert a == B.Power2(32) - 1 - c;
    if j + m >= 31 {
      NoHighBit(c, 31, j + m);
      NoHighBit(c, 31, 31);
      Turned(c, 32, 31);
    } else {
      Turned(c, 32, j + m);
    }
  }

  lemma RshBit(a: B.u32, b: B.u32, j: nat)
    ensures B.BitSet(ShiftRight(a, b), j) <==> j < 32 && B.BitSet(a, Min(j + b % 32, 31))
  {
    if a < 0x8000_0000 {
      L.RshMeets(a, b);
      PositiveShifted(a, b % 32, j);
    } else {
      var c := 0xffff_ffff - a;
      L.RshMeets(c, b);
      NegativeShifted(a, b % 32, j);
      B.Power32();
      Turned(B.ShiftRight(c, b), 32, j);
    }
  }

  lemma ShiftMeets(op: nat, a: B.u32, b: B.u32)
    requires op == 14 || op == 15
    ensures Replaces(op, a, b, Combine(op, a, b))
  {
    if op == 14 {
      L.LshMeets(a, b);
    } else {
      forall j: nat ensures B.BitSet(ShiftRight(a, b), j) <==> j < 32 && B.BitSet(a, Min(j + b % 32, 31)) {
        RshBit(a, b, j);
      }
    }
  }

  lemma CombineMeets(op: nat, a: B.u32, b: B.u32)
    requires 1 <= op <= 17 && !(9 <= op <= 12)
    ensures Replaces(op, a, b, Combine(op, a, b))
  {
    if 6 <= op <= 8 {
      LogicMeets(op, a, b);
    } else if op == 14 || op == 15 {
      ShiftMeets(op, a, b);
    } else if op >= 16 {
      SumMeets(op, a, b);
    }
  }

  lemma OperatorMeets(op: nat, s: State, v: Operand)
    requires v.Value? && |s.stack| == 33
    ensures Operates(op, s, v.value, v.sp, v.at, Operate(op, s, v))
  {
    if 1 <= op <= 17 && !(9 <= op <= 12) && 0 <= v.sp <= 32 {
      CombineMeets(op, s.stack[v.sp], v.value);
    }
  }

  /** Every step meets the law of its argument and of its operator. */
  lemma StepMeets(f: seq<u16>, s: State, p: Packet)
    requires s.at < |f| && |s.stack| == 33
    ensures Law(f, s, p, Execute(f, s, p))
  {
    ArgumentMeets(f, s, p);
    var v := Fetch(f, s, p);
    if v.Value? {
      OperatorMeets(f[s.at] / 0x400, s, v);
      assert Gives(f, s, p, v.value, v.sp, v.at);
    }
  }

  // ---------------------------------------------------------------- the law leaves nothing open

  lemma ReplacesDetermines(op: nat, a: B.u32, b: B.u32, r: int, q: int)
    requires Replaces(op, a, b, r) && Replaces(op, a, b, q)
    ensures r == q
  {
    if op == 6 || op == 7 || op == 8 || op == 14 || op == 15 {
      L.BitsDetermine(r, q);
    } else if op == 16 {
      L.RestDetermines(a + b, r, q);
    } else if op == 17 {
      assert r + b - a == r - (a - b) && q + b - a == q - (a - b);
      L.RestDetermines(a - b, r, q);
    }
  }

  lemma OperatesDetermines(op: nat, s: State, v: B.u32, sp: int, at: nat, e: Step, d: Step)
    requires |s.stack| == 33 && Operates(op, s, v, sp, at, e) && Operates(op, s, v, sp, at, d)
    ensures e == d
  {
    if 1 <= op <= 17 && !(9 <= op <= 12) && 0 <= sp <= 32 {
      ReplacesDetermines(op, s.stack[sp], v, e.next.stack[sp], d.next.stack[sp]);
    }
  }

  lemma RefusalDetermines(f: seq<u16>, s: State, p: Packet, end: End)
    requires s.at < |f| && |s.stack| == 33 && Refuses(f, s, p, end)
    ensures forall other :: Refuses(f, s, p, other) ==> other == end
    ensures forall v, sp, at :: !Gives(f, s, p, v, sp, at)
  {}

  /** There is one step only that meets the law. */
  lemma LawDetermines(f: seq<u16>, s: State, p: Packet, e: Step, d: Step)
    requires s.at < |f| && |s.stack| == 33 && Law(f, s, p, e) && Law(f, s, p, d)
    ensures e == d
  {
    if e.Stop? && Refuses(f, s, p, e.end) {
      RefusalDetermines(f, s, p, e.end);
    } else if d.Stop? && Refuses(f, s, p, d.end) {
      RefusalDetermines(f, s, p, d.end);
    } else {
      var v: B.u32, sp, at :| Gives(f, s, p, v, sp, at) && Operates(f[s.at] / 0x400, s, v, sp, at, e);
      var w: B.u32, sq, bt :| Gives(f, s, p, w, sq, bt) && Operates(f[s.at] / 0x400, s, w, sq, bt, d);
      assert v == w && sp == sq && at == bt;
      OperatesDetermines(f[s.at] / 0x400, s, v, sp, at, e, d);
    }
  }

  // ---------------------------------------------------------------- runs

  /** What the run answers when it comes to the end of the filter. */
  ghost predicate Concludes(s: State, end: End)
    requires |s.stack| == 33
  {
    if 0 <= s.sp <= 32 then end == Answer(s.stack[s.sp] != 0) else Outside(s.sp, end)
  }

  /** A chain of steps that meet the law, from the first state to the end of the run. */
  ghost predicate Traced(f: seq<u16>, p: Packet, tr: seq<State>, end: End) {
    && |tr| > 0 && (forall i | 0 <= i < |tr| :: |tr[i].stack| == 33)
    && (forall i {:trigger tr[i]} | 0 <= i < |tr| - 1 :: tr[i].at < |f| && Law(f, tr[i], p, Goto(tr[i + 1])))
    && var last := tr[|tr| - 1]; if last.at < |f| then Law(f, last, p, Stop(end)) else Concludes(last, end)
  }

  lemma TracedMore(f: seq<u16>, p: Packet, s: State, tr: seq<State>, end: End)
    requires Traced(f, p, tr, end) && s.at < |f| && |s.stack| == 33 && Law(f, s, p, Goto(tr[0]))
    ensures Traced(f, p, [s] + tr, end)
  {
    var all := [s] + tr;
    assert all[|all| - 1] == tr[|tr| - 1];
    forall i | 0 <= i < |all| - 1 ensures all[i].at < |f| && Law(f, all[i], p, Goto(all[i + 1])) {
      if i > 0 {
        assert all[i] == tr[i - 1] && all[i + 1] == tr[i];
      }
    }
  }

  /** A run is such a chain. */
  lemma {:induction false} RunTraced(f: seq<u16>, s: State, p: Packet) returns (tr: seq<State>)
    requires |s.stack| == 33
    ensures Traced(f, p, tr, Run(f, s, p)) && tr[0] == s
    decreases |f| - s.at
  {
    tr := [s];
    if s.at < |f| {
      StepMeets(f, s, p);
      ExecuteForward(f, s, p);
      var e := Execute(f, s, p);
      if e.Goto? {
        var rest := RunTraced(f, e.next, p);
        tr := [s] + rest;
        TracedMore(f, p, s, rest, Run(f, e.next, p));
      }
    }
  }

  /** The loop of net_do_filter goes through such a chain, from the second word with TRUE on the stack. */
  method DoFilterTraced(f: seq<u16>, p: Packet, stack: seq<B.u32>) returns (end: End, ghost tr: seq<State>)
    requires Accepted(f) && |stack| == 33
    ensures Traced(f, p, tr, end) && tr[0] == State(1, 32, stack[32 := 1], 0)
  {
    tr := RunTraced(f, Start(stack), p);
    end := DoFilter(f, p, stack);
  }

  // ---------------------------------------------------------------- chains of tests

  /** Whether a word of the packet's data has a value. */
  datatype Test = Test(word: nat, value: u16)

  /** The words that an instruction can name. */
  predicate Named(tests: seq<Test>) { forall i | 0 <= i < |tests| :: tests[i].word < 944 }

  predicate Present(t: Test, p: Packet) { t.word < p.dataCount }

  predicate Equals(t: Test, p: Packet) { Present(t, p) && p.data(t.word) == t.value }

  predicate Differs(t: Test, p: Packet) { Present(t, p) && p.data(t.word) != t.value }

  predicate AllPresent(tests: seq<Test>, i: nat, j: nat, p: Packet)
    requires j <= |tests|
  {
    forall k | i <= k < j :: Present(tests[k], p)
  }

  /** Push the word, then compare it with the value by a short-circuit operator. */
  function Chain(op: nat, tests: seq<Test>): (c: seq<u16>)
    requires 9 <= op <= 12 && Named(tests)
    ensures |c| == 3 * |tests|
  {
    if tests == [] then []
    else [16 + tests[0].word, op * 0x400 + 1, tests[0].value] + Chain(op, tests[1..])
  }

  lemma {:induction false} ChainAt(op: nat, tests: seq<Test>, i: nat)
    requires 9 <= op <= 12 && Named(tests) && i < |tests|
    ensures var c := Chain(op, tests);
      c[3 * i] == 16 + tests[i].word && c[3 * i + 1] == op * 0x400 + 1 && c[3 * i + 2] == tests[i].value
    decreases i
  {
    if i > 0 {
      ChainAt(op, tests[1..], i - 1);
      assert Chain(op, tests)[3..] == Chain(op, tests[1..]);
    }
  }

  /** A filter with the instructions of a test at each third word. */
  ghost predicate Tests(f: seq<u16>, op: nat, tests: seq<Test>) {
    && 9 <= op <= 12 && Named(tests) && |f| >= 1 + 3 * |tests|
    && forall i | 0 <= i < |tests| :: Tested(f, 1 + 3 * i, op, tests[i])
  }

  ghost predicate Tested(f: seq<u16>, at: nat, op: nat, t: Test) {
    at + 2 < |f| && t.word < 944 && f[at] == 16 + t.word && f[at + 1] == op * 0x400 + 1 && f[at + 2] == t.value
  }

  /** The chain alone, or with a PUSHZERO after it. */
  function Filter(flags: u16, op: nat, tests: seq<Test>, zero: bool): seq<u16>
    requires 9 <= op <= 12 && Named(tests)
  {
    [flags] + Chain(op, tests) + if zero then [2] else []
  }

  lemma FilterTests(flags: u16, op: nat, tests: seq<Test>, zero: bool)
    requires 9 <= op <= 12 && Named(tests)
    ensures Tests(Filter(flags, op, tests, zero), op, tests)
  {
    var f := Filter(flags, op, tests, zero);
    forall i | 0 <= i < |tests| ensures Tested(f, 1 + 3 * i, op, tests[i]) {
      ChainAt(op, tests, i);
    }
  }

  /** Between two tests the stack is where it was at the start, with TRUE on it. */
  predicate Between(s: State, i: nat) { |s.stack| == 33 && s.sp == 32 && s.stack[32] == 1 && s.at == 1 + 3 * i }

  /** A test: the answer is FALSE without the word; else it is decided, or the run goes on to the next test. */
  lemma TestRuns(f: seq<u16>, op: nat, t: Test, s: State, p: Packet, i: nat) returns (next: State)
    requires 9 <= op <= 12 && Between(s, i) && Tested(f, s.at, op, t)
    ensures Between(next, i + 1)
    ensures var end := Run(f, s, p);
      if !Present(t, p) then end == Answer(false)
      else if Decides(op, Equals(t, p), true) then end == Answer(true)
      else if Decides(op, Equals(t, p), false) then end == Answer(false)
      else end == Run(f, next, p)
  {
    next := State(1 + 3 * (i + 1), 32, s.stack, s.shorts + 1);
    if Present(t, p) {
      var v := p.data(t.word);
      var pushed := State(s.at + 1, 31, s.stack[31 := v], s.shorts);
      assert Execute(f, s, p) == Goto(pushed);
      next := State(s.at + 3, 32, pushed.stack, s.shorts + 1);
      Compared(f, op, t, pushed, p, next);
    }
  }

  lemma Compared(f: seq<u16>, op: nat, t: Test, s: State, p: Packet, next: State)
    requires 9 <= op <= 12 && |s.stack| == 33 && s.sp == 31 && s.at + 1 < |f|
    requires f[s.at] == op * 0x400 + 1 && f[s.at + 1] == t.value && Present(t, p) && s.stack[31] == p.data(t.word)
    requires next == State(s.at + 2, 32, s.stack, s.shorts + 1)
    ensures var end := Run(f, s, p);
      if Decides(op, Equals(t, p), true) then end == Answer(true)
      else if Decides(op, Equals(t, p), false) then end == Answer(false)
      else end == Run(f, next, p)
  {
    assert f[s.at] / 0x400 == op && f[s.at] % 0x400 == 1;
    assert Fetch(f, s, p) == Value(t.value, 31, s.at + 2);
  }

  /** At the end the stack has TRUE on it, or the zero that was pushed. */
  lemma ChainEnds(flags: u16, op: nat, tests: seq<Test>, zero: bool, s: State, p: Packet)
    requires 9 <= op <= 12 && Named(tests) && Between(s, |tests|)
    ensures Run(Filter(flags, op, tests, zero), s, p) == Answer(!zero)
  {
    var f := Filter(flags, op, tests, zero);
    if zero {
      assert f[s.at] == 2;
      assert Execute(f, s, p) == Goto(State(s.at + 1, 31, s.stack[31 := 0], s.shorts));
    }
  }

  /** CAND: all tests from `i` on hold. */
  lemma {:induction false} CandRuns(flags: u16, tests: seq<Test>, s: State, p: Packet, i: nat)
    requires Named(tests) && i <= |tests| && Between(s, i)
    ensures Run(Filter(flags, 10, tests, false), s, p) == Answer(forall j | i <= j < |tests| :: Equals(tests[j], p))
    decreases |tests| - i
  {
    if i == |tests| {
      ChainEnds(flags, 10, tests, false, s, p);
    } else {
      FilterTests(flags, 10, tests, false);
      var next := TestRuns(Filter(flags, 10, tests, false), 10, tests[i], s, p, i);
      if Equals(tests[i], p) {
        CandRuns(flags, tests, next, p, i + 1);
      }
    }
  }

  /** CNOR: the words of all tests from `i` on are there and differ. */
  lemma {:induction false} CnorRuns(flags: u16, tests: seq<Test>, s: State, p: Packet, i: nat)
    requires Named(tests) && i <= |tests| && Between(s, i)
    ensures Run(Filter(flags, 11, tests, false), s, p) == Answer(forall j | i <= j < |tests| :: Differs(tests[j], p))
    decreases |tests| - i
  {
    if i == |tests| {
      ChainEnds(flags, 11, tests, false, s, p);
    } else {
      FilterTests(flags, 11, tests, false);
      var next := TestRuns(Filter(flags, 11, tests, false), 11, tests[i], s, p, i);
      if Differs(tests[i], p) {
        CnorRuns(flags, tests, next, p, i + 1);
      }
    }
  }

  /** Some test from `i` on holds, and the words of those before it are there. */
  ghost predicate SomeEquals(tests: seq<Test>, i: nat, p: Packet) {
    exists j | i <= j < |tests| :: Equals(tests[j], p) && AllPresent(tests, i, j, p)
  }

  ghost predicate SomeDiffers(tests: seq<Test>, i: nat, p: Packet) {
    exists j | i <= j < |tests| :: Differs(tests[j], p) && AllPresent(tests, i, j, p)
  }

  /** COR, with a zero after the chain: some test from `i` on holds. */
  lemma {:induction false} CorRuns(flags: u16, tests: seq<Test>, s: State, p: Packet, i: nat)
    requires Named(tests) && i <= |tests| && Between(s, i)
    ensures Run(Filter(flags, 9, tests, true), s, p) == Answer(SomeEquals(tests, i, p))
    decreases |tests| - i
  {
    if i == |tests| {
      ChainEnds(flags, 9, tests, true, s, p);
    } else {
      FilterTests(flags, 9, tests, true);
      var next := TestRuns(Filter(flags, 9, tests, true), 9, tests[i], s, p, i);
      if Differs(tests[i], p) {
        CorRuns(flags, tests, next, p, i + 1);
        EqualsLater(tests, i, p);
      } else if Equals(tests[i], p) {
        assert AllPresent(tests, i, i, p);
      }
    }
  }

  lemma EqualsLater(tests: seq<Test>, i: nat, p: Packet)
    requires i < |tests| && Differs(tests[i], p)
    ensures SomeEquals(tests, i, p) <==> SomeEquals(tests, i + 1, p)
  {
    if j :| i + 1 <= j < |tests| && Equals(tests[j], p) && AllPresent(tests, i + 1, j, p) {
      assert AllPresent(tests, i, j, p);
    }
    if j :| i <= j < |tests| && Equals(tests[j], p) && AllPresent(tests, i, j, p) {
      assert AllPresent(tests, i + 1, j, p);
    }
  }

  /** CNAND, with a zero after the chain: some test from `i` on fails. */
  lemma {:induction false} CnandRuns(flags: u16, tests: seq<Test>, s: State, p: Packet, i: nat)
    requires Named(tests) && i <= |tests| && Between(s, i)
    ensures Run(Filter(flags, 12, tests, true), s, p) == Answer(SomeDiffers(tests, i, p))
    decreases |tests| - i
  {
    if i == |tests| {
      ChainEnds(flags, 12, tests, true, s, p);
    } else {
      FilterTests(flags, 12, tests, true);
      var next := TestRuns(Filter(flags, 12, tests, true), 12, tests[i], s, p, i);
      if Equals(tests[i], p) {
        CnandRuns(flags, tests, next, p, i + 1);
        DiffersLater(tests, i, p);
      } else if Differs(tests[i], p) {
        assert AllPresent(tests, i, i, p);
      }
    }
  }

  lemma DiffersLater(tests: seq<Test>, i: nat, p: Packet)
    requires i < |tests| && Equals(tests[i], p)
    ensures SomeDiffers(tests, i, p) <==> SomeDiffers(tests, i + 1, p)
  {
    if j :| i + 1 <= j < |tests| && Differs(tests[j], p) && AllPresent(tests, i + 1, j, p) {
      assert AllPresent(tests, i, j, p);
    }
    if j :| i <= j < |tests| && Differs(tests[j], p) && AllPresent(tests, i, j, p) {
      assert AllPresent(tests, i + 1, j, p);
    }
  }

  /** What the four chains decide, for every list of tests and every packet. */
  lemma ChainsDecide(flags: u16, tests: seq<Test>, p: Packet, stack: seq<B.u32>)
    requires Named(tests) && |stack| == 33
    ensures Run(Filter(flags, 10, tests, false), Start(stack), p) ==
      Answer(forall j | 0 <= j < |tests| :: tests[j].word < p.dataCount && p.data(tests[j].word) == tests[j].value)
    ensures Run(Filter(flags, 11, tests, false), Start(stack), p) ==
      Answer(forall j | 0 <= j < |tests| :: tests[j].word < p.dataCount && p.data(tests[j].word) != tests[j].value)
    ensures Run(Filter(flags, 9, tests, true), Start(stack), p) ==
      Answer(exists j | 0 <= j < |tests| :: Equals(tests[j], p) && AllPresent(tests, 0, j, p))
    ensures Run(Filter(flags, 12, tests, true), Start(stack), p) ==
      Answer(exists j | 0 <= j < |tests| :: Differs(tests[j], p) && AllPresent(tests, 0, j, p))
  {
    CandRuns(flags, tests, Start(stack), p, 0);
    CnorRuns(flags, tests, Start(stack), p, 0);
    CorRuns(flags, tests, Start(stack), p, 0);
    CnandRuns(flags, tests, Start(stack), p, 0);
  }

  // ---------------------------------------------------------------- the validator

  /** The validator takes the instruction at `v` and is at `w` after it. */
  ghost predicate Admits(f: seq<u16>, v: Parsing, w: Parsing)
    requires v.at < |f|
  {
    var op, arg := f[v.at] / 0x400, f[v.at] % 0x400;
    var low := if arg == 0 || arg == 14 || arg == 15 then v.sp else v.sp - 1;
    && op <= 17 && low >= 2 && (arg >= 992 ==> v.sp + (arg - 992) <= 32)
    && w.at == (if arg == 1 then v.at + 2 else v.at + 1) && w.at <= |f|
    && if op == 0 then w.sp == low else low <= 126 && w.sp == low + 1
  }

  ghost predicate Admitted(f: seq<u16>, tr: seq<Parsing>) {
    && |tr| > 0 && tr[|tr| - 1].at >= |f|
    && forall i {:trigger tr[i]} | 0 <= i < |tr| - 1 :: tr[i].at < |f| && Admits(f, tr[i], tr[i + 1])
  }

  lemma AdmitsExactly(f: seq<u16>, v: Parsing, w: Parsing)
    requires v.at < |f|
    ensures Admits(f, v, w) <==> ParseStep(f, v) == Some(w)
  {}

  lemma {:induction false} AcceptsAdmits(f: seq<u16>, v: Parsing) returns (tr: seq<Parsing>)
    requires Accepts(f, v)
    ensures Admitted(f, tr) && tr[0] == v
    decreases |f| - v.at
  {
    tr := [v];
    if v.at < |f| {
      var w := ParseStep(f, v).value;
      ParseForward(f, v);
      AdmitsExactly(f, v, w);
      var rest := AcceptsAdmits(f, w);
      tr := [v] + rest;
      forall i | 0 <= i < |tr| - 1 ensures tr[i].at < |f| && Admits(f, tr[i], tr[i + 1]) {
        if i > 0 {
          assert tr[i] == rest[i - 1] && tr[i + 1] == rest[i];
        }
      }
    }
  }

  lemma {:induction false} AdmitsAccepts(f: seq<u16>, tr: seq<Parsing>)
    requires Admitted(f, tr)
    ensures Accepts(f, tr[0])
  {
    if |tr| > 1 {
      var rest := tr[1..];
      forall i | 0 <= i < |rest| - 1 ensures rest[i].at < |f| && Admits(f, rest[i], rest[i + 1]) {
        assert rest[i] == tr[i + 1];
      }
      AdmitsAccepts(f, rest);
      AdmitsExactly(f, tr[0], tr[1]);
    }
  }

  /** parse_net_filter accepts a filter exactly if it can go through it instruction by instruction. */
  lemma AcceptedExactly(f: seq<u16>)
    ensures Accepted(f) <==> |f| > 0 && exists tr :: Admitted(f, tr) && tr[0] == Parsing(1, 32)
  {
    if Accepted(f) {
      var tr := AcceptsAdmits(f, Parsing(1, 32));
    }
    if |f| > 0 && exists tr :: Admitted(f, tr) && tr[0] == Parsing(1, 32) {
      var tr :| Admitted(f, tr) && tr[0] == Parsing(1, 32);
      AdmitsAccepts(f, tr);
    }
  }

  // ---------------------------------------------------------------- how long a chain may be

  /** The validator lets the stack fall by one with every test. */
  lemma TestParses(f: seq<u16>, op: nat, t: Test, v: Parsing)
    requires 9 <= op <= 12 && Tested(f, v.at, op, t) && v.sp <= 32
    ensures Accepts(f, v) <==> v.sp >= 4 && Accepts(f, Parsing(v.at + 3, v.sp - 1))
  {
    assert f[v.at] / 0x400 == 0 && f[v.at] % 0x400 == 16 + t.word;
    if v.sp >= 3 {
      var w := Parsing(v.at + 1, v.sp - 1);
      assert ParseStep(f, v) == Some(w);
      assert f[w.at] / 0x400 == op && f[w.at] % 0x400 == 1;
      assert ParseStep(f, w) == if v.sp >= 4 then Some(Parsing(v.at + 3, v.sp - 1)) else None;
    }
  }

  lemma {:induction false} ChainParses(flags: u16, op: nat, tests: seq<Test>, zero: bool, i: nat)
    requires 9 <= op <= 12 && Named(tests) && i <= |tests| && i <= 29
    ensures Accepts(Filter(flags, op, tests, zero), Parsing(1 + 3 * i, 32 - i)) <==> |tests| <= 29
    decreases |tests| - i
  {
    var f := Filter(flags, op, tests, zero);
    if i == |tests| {
      if zero {
        assert f[1 + 3 * i] == 2;
        assert ParseStep(f, Parsing(1 + 3 * i, 32 - i)) == Some(Parsing(2 + 3 * i, 31 - i));
      }
    } else {
      FilterTests(flags, op, tests, zero);
      TestParses(f, op, tests[i], Parsing(1 + 3 * i, 32 - i));
      if i < 29 {
        ChainParses(flags, op, tests, zero, i + 1);
      }
    }
  }

  /** parse_net_filter accepts these chains exactly up to 29 tests. */
  lemma ChainAccepted(flags: u16, op: nat, tests: seq<Test>, zero: bool)
    requires 9 <= op <= 12 && Named(tests)
    ensures Accepted(Filter(flags, op, tests, zero)) <==> |tests| <= 29
  {
    ChainParses(flags, op, tests, zero, 0);
  }
}
