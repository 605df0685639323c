/**
  * The stack filters of device/net_io.c: parse_net_filter and net_do_filter.
  * A filter is an array of 16-bit words whose first holds flags; the stack grows down from place 32.
  */
module Cspf {
  import opened Options
  import B = Bpf

  type u16 = x: int | 0 <= x < 0x1_0000

  const DEPTH: nat := 32         // NET_FILTER_STACK_DEPTH
  const MAX_FILTER: nat := 128   // NET_MAX_FILTER
  const HEADER_WORDS: nat := 32  // NET_HDW_HDR_MAX / sizeof(unsigned short)

  const NOPUSH: nat := 0
  const PUSHLIT: nat := 1
  const PUSHZERO: nat := 2
  const PUSHIND: nat := 14
  const PUSHHDRIND: nat := 15
  const PUSHWORD: nat := 16
  const PUSHHDR: nat := 960
  const PUSHSTK: nat := 992

  function Op(w: u16): nat { w / 0x400 }    // NETF_OP, in the order of NETF_NOP .. NETF_SUB

  function Arg(w: u16): nat { w % 0x400 }   // NETF_ARG

  predicate ShortCircuit(op: nat) { 9 <= op <= 12 }   // COR, CAND, CNOR, CNAND

  datatype Packet = Packet(dataCount: nat, data: nat -> u16, header: nat -> u16)

  // ---------------------------------------------------------------- parse_net_filter

  datatype Parsing = Parsing(at: nat, sp: int)

  /** What one turn of the loop of parse_net_filter does; None is a refusal. */
  function ParseStep(f: seq<u16>, p: Parsing): Option<Parsing>
    requires p.at < |f|
  {
    var op, arg := Op(f[p.at]), Arg(f[p.at]);
    var next := if arg == PUSHLIT then p.at + 2 else p.at + 1;
    var sp := if arg in {NOPUSH, PUSHIND, PUSHHDRIND} then p.sp else p.sp - 1;
    if arg == PUSHLIT && p.at + 1 >= |f| then None
    else if arg >= PUSHSTK && arg - PUSHSTK + p.sp > DEPTH then None
    else if PUSHHDR <= arg < PUSHSTK && arg - PUSHHDR >= HEADER_WORDS then None
    else if sp < 2 then None
    else if op == 0 then Some(Parsing(next, sp))
    else if sp > MAX_FILTER - 2 || op > 17 then None
    else Some(Parsing(next, sp + 1))
  }

  lemma ParseForward(f: seq<u16>, p: Parsing)
    requires p.at < |f| && ParseStep(f, p).Some?
    ensures p.at < ParseStep(f, p).value.at <= |f|
  {}

  predicate Accepts(f: seq<u16>, p: Parsing)
    decreases |f| - p.at
  {
    p.at < |f| ==> ParseStep(f, p).Some? && (ParseForward(f, p); Accepts(f, ParseStep(f, p).value))
  }

  predicate Accepted(f: seq<u16>) { |f| > 0 && Accepts(f, Parsing(1, DEPTH)) }

  /** parse_net_filter. */
  method ParseFilter(f: seq<u16>) returns (ok: bool)
    requires |f| > 0
    ensures ok == Accepted(f)
  {
    var p := Parsing(1, DEPTH);
    while p.at < |f|
      invariant Accepts(f, p) == Accepted(f)
      decreases |f| - p.at
    {
      match ParseStep(f, p)
      case None => return false;
      case Some(next) =>
        ParseForward(f, p);
        p := next;
    }
    return true;
  }

  // ---------------------------------------------------------------- net_do_filter

  /** `shorts` counts the short-circuit operators executed so far. */
  datatype State = State(at: nat, sp: int, stack: seq<B.u32>, shorts: nat)

  /** A run ends with an answer, or it leaves the filter, or the stack at its low or its high end. */
  datatype End = Answer(accept: bool) | OutsideFilter | BelowStack | AboveStack

  datatype Step = Goto(next: State) | Stop(end: End)

  datatype Operand = Value(value: B.u32, sp: int, at: nat) | Fails(end: End)

  predicate OnStack(sp: int) { 0 <= sp <= DEPTH }

  /** What reading or writing place `sp` of the stack runs into. */
  function Fault(sp: int): End { if sp < 0 then BelowStack else AboveStack }

  function Top(s: State, sp: int): Operand
    requires |s.stack| == DEPTH + 1
  {
    if OnStack(sp) then Value(s.stack[sp], s.sp, s.at + 1) else Fails(Fault(sp))
  }

  /** The first switch of net_do_filter: the operand, and where stack and filter are after it. */
  function Fetch(f: seq<u16>, s: State, p: Packet): Operand
    requires s.at < |f| && |s.stack| == DEPTH + 1
  {
    var arg := Arg(f[s.at]);
    if arg == NOPUSH then
      var v := Top(s, s.sp); if v.Fails? then v else v.(sp := s.sp + 1)
    else if arg == PUSHZERO then Value(0, s.sp, s.at + 1)
    else if arg == PUSHLIT then
      if s.at + 1 < |f| then Value(f[s.at + 1], s.sp, s.at + 2) else Fails(OutsideFilter)
    else if arg == PUSHIND then
      var v := Top(s, s.sp);
      if v.Fails? then v
      else if v.value >= p.dataCount then Fails(Answer(false))
      else Value(p.data(v.value), s.sp + 1, s.at + 1)
    else if arg == PUSHHDRIND then
      var v := Top(s, s.sp);
      if v.Fails? then v
      else if v.value >= HEADER_WORDS then Fails(Answer(false))
      else Value(p.header(v.value), s.sp + 1, s.at + 1)
    else if arg >= PUSHSTK then Top(s, s.sp + (arg - PUSHSTK))
    else if arg >= PUSHHDR then Value(p.header(arg - PUSHHDR), s.sp, s.at + 1)
    else if arg < PUSHWORD || arg - PUSHWORD >= p.dataCount then Fails(Answer(false))
    else Value(p.data(arg - PUSHWORD), s.sp, s.at + 1)
  }

  function Bool(b: bool): B.u32 { if b then 1 else 0 }

  function Xor(a: B.u32, b: B.u32): B.u32 { B.Or(a, b) - B.And(a, b) }

  /** A bit of the exclusive or is set if it is set in one number only. */
  lemma {:induction false} XorBits(a: nat, b: nat, i: nat)
    ensures a + b - 2 * B.And(a, b) >= 0
    ensures B.BitSet(a + b - 2 * B.And(a, b), i) <==> B.BitSet(a, i) != B.BitSet(b, i)
    decreases i
  {
    if a == 0 || b == 0 {
      B.NoBits(i);
    } else if i > 0 {
      XorBits(a / 2, b / 2, i - 1);
      assert (a + b - 2 * B.And(a, b)) / 2 == a / 2 + b / 2 - 2 * B.And(a / 2, b / 2);
    }
  }

  /** Shifting an int to the right copies its sign. */
  function ShiftRight(a: B.u32, n: B.u32): B.u32 {
    if a < 0x8000_0000 then B.ShiftRight(a, n) else 0xffff_ffff - B.ShiftRight(0xffff_ffff - a, n)
  }

  /** The operators that replace the top of the stack; any other leaves it alone. */
  function Combine(op: nat, a: B.u32, b: B.u32): B.u32 {
    match op
    case 1 => Bool(a == b)
    case 2 => Bool(a < b)
    case 3 => Bool(a <= b)
    case 4 => Bool(a > b)
    case 5 => Bool(a >= b)
    case 6 => B.And(a, b)
    case 7 => B.Or(a, b)
    case 8 => Xor(a, b)
    case 13 => Bool(a != b)
    case 14 => B.ShiftLeft(a, b)
    case 15 => ShiftRight(a, b)
    case 16 => B.Add(a, b)
    case 17 => (a - b) % 0x1_0000_0000
    case _ => a
  }

  /** The answer of a short-circuit operator that decides; None if the filter goes on. */
  function Decision(op: nat, equal: bool): Option<bool> {
    match op
    case 9 => if equal then Some(true) else None
    case 10 => if equal then None else Some(false)
    case 11 => if equal then Some(false) else None
    case _ => if equal then None else Some(true)
  }

  /** The second switch of net_do_filter. */
  function Operate(op: nat, s: State, v: Operand): Step
    requires v.Value? && |s.stack| == DEPTH + 1
  {
    var t := s.(at := v.at, sp := v.sp);
    if op == 0 then
      if OnStack(t.sp - 1) then Goto(t.(sp := t.sp - 1, stack := t.stack[t.sp - 1 := v.value]))
      else Stop(Fault(t.sp - 1))
    else if op > 17 then Goto(t)
    else if !OnStack(t.sp) then Stop(Fault(t.sp))
    else if ShortCircuit(op) then
      match Decision(op, t.stack[t.sp] == v.value)
      case Some(accept) => Stop(Answer(accept))
      case None => Goto(t.(sp := t.sp + 1, shorts := t.shorts + 1))
    else Goto(t.(stack := t.stack[t.sp := Combine(op, t.stack[t.sp], v.value)]))
  }

  /** One turn of the loop of net_do_filter. */
  function Execute(f: seq<u16>, s: State, p: Packet): Step
    requires s.at < |f| && |s.stack| == DEPTH + 1
  {
    var v := Fetch(f, s, p);
    if v.Fails? then Stop(v.end) else Operate(Op(f[s.at]), s, v)
  }

  lemma ExecuteForward(f: seq<u16>, s: State, p: Packet)
    requires s.at < |f| && |s.stack| == DEPTH + 1
    ensures var e := Execute(f, s, p); e.Goto? ==> s.at < e.next.at <= |f| && |e.next.stack| == DEPTH + 1
  {}

  function Run(f: seq<u16>, s: State, p: Packet): End
    requires |s.stack| == DEPTH + 1
    decreases |f| - s.at
  {
    if s.at >= |f| then
      if OnStack(s.sp) then Answer(s.stack[s.sp] != 0) else Fault(s.sp)
    else
      ExecuteForward(f, s, p);
      match Execute(f, s, p)
      case Goto(next) => Run(f, next, p)
      case Stop(end) => end
  }

  /** The stack starts with TRUE at its high end; the rest of it is whatever was there. */
  function Start(stack: seq<B.u32>): State
    requires |stack| == DEPTH + 1
  {
    State(1, DEPTH, stack[DEPTH := 1], 0)
  }

  /** net_do_filter. */
  method DoFilter(f: seq<u16>, p: Packet, stack: seq<B.u32>) returns (end: End)
    requires Accepted(f) && |stack| == DEPTH + 1
    ensures end == Run(f, Start(stack), p)
    ensures end.Answer? || end.AboveStack?
  {
    RunStaysInside(f, Parsing(1, DEPTH), Start(stack), p);
    var s := Start(stack);
    while s.at < |f|
      invariant |s.stack| == DEPTH + 1 && Run(f, s, p) == Run(f, Start(stack), p)
      decreases |f| - s.at
    {
      ExecuteForward(f, s, p);
      match Execute(f, s, p)
      case Goto(next) => s := next;
      case Stop(e) => return e;
    }
    return if OnStack(s.sp) then Answer(s.stack[s.sp] != 0) else Fault(s.sp);
  }

  // ---------------------------------------------------------------- lock-step

  /**
    * The interpreter is where the validator was, and its stack is as many places higher as it executed
    * short-circuit operators.
    */
  ghost predicate LockStep(v: Parsing, s: State) {
    s.at == v.at && s.sp == v.sp + s.shorts && v.sp >= 2 && |s.stack| == DEPTH + 1
  }

  /**
    * An accepted instruction keeps the lock-step, and fails neither at the low end of the stack nor at the end of
    * the filter.
    */
  lemma LockStepKept(f: seq<u16>, v: Parsing, s: State, p: Packet)
    requires LockStep(v, s) && v.at < |f| && ParseStep(f, v).Some?
    ensures var e := Execute(f, s, p);
      match e
      case Goto(next) => LockStep(ParseStep(f, v).value, next)
      case Stop(end) => end.Answer? || end.AboveStack?
  {}

  lemma {:induction false} RunStaysInside(f: seq<u16>, v: Parsing, s: State, p: Packet)
    requires Accepts(f, v) && LockStep(v, s)
    ensures var end := Run(f, s, p); end.Answer? || end.AboveStack?
    decreases |f| - v.at
  {
    if v.at < |f| {
      LockStepKept(f, v, s, p);
      ExecuteForward(f, s, p);
      ParseForward(f, v);
      var e := Execute(f, s, p);
      if e.Goto? {
        RunStaysInside(f, ParseStep(f, v).value, e.next, p);
      }
    }
  }

  /** The state after `n` instructions, if the run gets that far. */
  function After(f: seq<u16>, s: State, p: Packet, n: nat): Option<State>
    requires |s.stack| == DEPTH + 1
    ensures After(f, s, p, n).Some? ==> |After(f, s, p, n).value.stack| == DEPTH + 1
    decreases n
  {
    if n == 0 then Some(s)
    else
      match After(f, s, p, n - 1)
      case None => None
      case Some(t) =>
        if t.at >= |f| then None
        else
          ExecuteForward(f, t, p);
          match Execute(f, t, p)
          case Goto(next) => Some(next)
          case Stop(_) => None
  }

  /** Where the validator is after `n` instructions. */
  function ParsedTo(f: seq<u16>, n: nat): Option<Parsing> {
    if n == 0 then Some(Parsing(1, DEPTH))
    else
      match ParsedTo(f, n - 1)
      case None => None
      case Some(v) => if v.at >= |f| then None else ParseStep(f, v)
  }

  lemma {:induction false} ParsedAccepts(f: seq<u16>, n: nat)
    requires Accepted(f) && ParsedTo(f, n).Some?
    ensures Accepts(f, ParsedTo(f, n).value)
  {
    if n > 0 {
      ParsedAccepts(f, n - 1);
    }
  }

  lemma LockStepTurn(f: seq<u16>, stack: seq<B.u32>, p: Packet, n: nat)
    requires n > 0 && |stack| == DEPTH + 1 && After(f, Start(stack), p, n).Some?
      && After(f, Start(stack), p, n - 1).Some?
    requires ParsedTo(f, n - 1).Some? && LockStep(ParsedTo(f, n - 1).value, After(f, Start(stack), p, n - 1).value)
    requires Accepts(f, ParsedTo(f, n - 1).value)
    ensures ParsedTo(f, n).Some? && LockStep(ParsedTo(f, n).value, After(f, Start(stack), p, n).value)
  {
    LockStepKept(f, ParsedTo(f, n - 1).value, After(f, Start(stack), p, n - 1).value, p);
  }

  /**
    * After every instruction of every run of an accepted filter, the stack index is the validator's
    * plus the number of short-circuit operators executed.
    */
  lemma {:induction false} LockStepAlways(f: seq<u16>, stack: seq<B.u32>, p: Packet, n: nat)
    requires Accepted(f) && |stack| == DEPTH + 1 && After(f, Start(stack), p, n).Some?
    ensures ParsedTo(f, n).Some? && LockStep(ParsedTo(f, n).value, After(f, Start(stack), p, n).value)
  {
    if n == 0 {
      assert After(f, Start(stack), p, 0) == Some(Start(stack));
    } else {
      LockStepAlways(f, stack, p, n - 1);
      ParsedAccepts(f, n - 1);
      LockStepTurn(f, stack, p, n);
    }
  }

  // ---------------------------------------------------------------- the high end of the stack

  predicate TakesTop(arg: nat) { arg in {NOPUSH, PUSHIND, PUSHHDRIND} }

  /** With the stack at `sp`, the instruction reads and writes no place above the stack. */
  predicate ReachesNoHigher(w: u16, sp: int) {
    var arg := Arg(w);
    var after := if TakesTop(arg) then sp + 1 else sp;
    && (TakesTop(arg) ==> sp <= DEPTH)
    && (arg >= PUSHSTK ==> sp + (arg - PUSHSTK) <= DEPTH)
    && (if Op(w) == 0 then after - 1 <= DEPTH else after <= DEPTH)
  }

  /** An argument that stands for no word of the packet: the answer is FALSE, whatever the packet. */
  predicate Refuses(w: u16) { Arg(w) < PUSHWORD && !TakesTop(Arg(w)) && Arg(w) !in {PUSHLIT, PUSHZERO} }

  /** The run neither goes above the stack at this instruction nor, behind the last one, at the answer. */
  predicate Fine(f: seq<u16>, s: State, p: Packet)
    requires |s.stack| == DEPTH + 1
  {
    if s.at >= |f| then s.sp <= DEPTH else Execute(f, s, p) != Stop(AboveStack)
  }

  function Blank(v: Parsing, shorts: nat): State { State(v.at, v.sp + shorts, seq(DEPTH + 1, _ => 0), shorts) }

  const LONG := Packet(0x400, _ => 0, _ => 0)   // a packet that has every word a filter can ask for

  lemma StepFine(f: seq<u16>, v: Parsing, s: State, p: Packet)
    requires LockStep(v, s) && v.at < |f| && ParseStep(f, v).Some?
    requires ReachesNoHigher(f[v.at], s.sp) || Refuses(f[v.at])
    ensures Fine(f, s, p)
  {}

  lemma StepNotFine(f: seq<u16>, v: Parsing, shorts: nat)
    requires v.at < |f| && ParseStep(f, v).Some? && v.sp >= 2
    requires !ReachesNoHigher(f[v.at], v.sp + shorts) && !Refuses(f[v.at])
    ensures LockStep(v, Blank(v, shorts)) && !Fine(f, Blank(v, shorts), LONG)
  {}

  /** Exactly when an accepted instruction stays below the high end, whatever is on the stack and in the packet. */
  lemma StepExactly(f: seq<u16>, v: Parsing, shorts: nat)
    requires v.at < |f| && ParseStep(f, v).Some? && v.sp >= 2
    ensures ReachesNoHigher(f[v.at], v.sp + shorts) || Refuses(f[v.at])
      <==> forall s, p | LockStep(v, s) && s.shorts == shorts :: Fine(f, s, p)
  {
    if ReachesNoHigher(f[v.at], v.sp + shorts) || Refuses(f[v.at]) {
      forall s, p | LockStep(v, s) && s.shorts == shorts ensures Fine(f, s, p) {
        StepFine(f, v, s, p);
      }
    } else {
      StepNotFine(f, v, shorts);
      assert Blank(v, shorts).shorts == shorts;
    }
  }

  function Passed(w: u16, shorts: nat): nat { if ShortCircuit(Op(w)) then shorts + 1 else shorts }

  /**
    * From `v` on, with `shorts` short-circuit operators behind, nothing reaches above the stack.  A filter
    * has no jumps, so this can be seen from the filter alone.
    */
  predicate Roomy(f: seq<u16>, v: Parsing, shorts: nat)
    requires Accepts(f, v)
    decreases |f| - v.at
  {
    if v.at >= |f| then v.sp + shorts <= DEPTH
    else
      || Refuses(f[v.at])
      || (&& ReachesNoHigher(f[v.at], v.sp + shorts)
          && (ParseForward(f, v); Roomy(f, ParseStep(f, v).value, Passed(f[v.at], shorts))))
  }

  /** The interpreter is at a place of the filter from `v` on, with the short-circuit operators before it behind. */
  ghost predicate Comes(f: seq<u16>, v: Parsing, shorts: nat, s: State)
    requires Accepts(f, v)
    decreases |f| - v.at
  {
    || (LockStep(v, s) && s.shorts == shorts)
    || (&& v.at < |f| && !Refuses(f[v.at])
        && (ParseForward(f, v); Comes(f, ParseStep(f, v).value, Passed(f[v.at], shorts), s)))
  }

  ghost predicate AllFine(f: seq<u16>, v: Parsing, shorts: nat)
    requires Accepts(f, v)
  {
    forall s, p | Comes(f, v, shorts, s) && |s.stack| == DEPTH + 1 :: Fine(f, s, p)
  }

  lemma AllFineStep(f: seq<u16>, v: Parsing, shorts: nat)
    requires Accepts(f, v) && v.at < |f| && !Refuses(f[v.at])
    ensures AllFine(f, v, shorts) <==>
        && (forall s, p | LockStep(v, s) && s.shorts == shorts :: Fine(f, s, p))
        && AllFine(f, ParseStep(f, v).value, Passed(f[v.at], shorts))
  {
    ParseForward(f, v);
    var w, n := ParseStep(f, v).value, Passed(f[v.at], shorts);
    if AllFine(f, v, shorts) {
      forall s, p | LockStep(v, s) && s.shorts == shorts ensures Fine(f, s, p) {
        assert Comes(f, v, shorts, s);
      }
      forall s, p | Comes(f, w, n, s) && |s.stack| == DEPTH + 1 ensures Fine(f, s, p) {
        assert Comes(f, v, shorts, s);
      }
    }
  }

  /**
    * The exact condition for a whole filter: at every place it comes to, whatever is on the stack and in the
    * packet, it stays below the high end of the stack, exactly if it is roomy.
    */
  lemma {:induction false} RoomyExactly(f: seq<u16>, v: Parsing, shorts: nat)
    requires Accepts(f, v) && v.sp >= 2
    ensures Roomy(f, v, shorts) <==> AllFine(f, v, shorts)
    decreases |f| - v.at
  {
    if v.at >= |f| {
      assert Comes(f, v, shorts, Blank(v, shorts));
      assert Fine(f, Blank(v, shorts), LONG) <==> Roomy(f, v, shorts);
    } else {
      StepExactly(f, v, shorts);
      if Refuses(f[v.at]) {
        forall s, p | Comes(f, v, shorts, s) && |s.stack| == DEPTH + 1 ensures Fine(f, s, p) {
          assert LockStep(v, s);
        }
      } else {
        ParseForward(f, v);
        AllFineStep(f, v, shorts);
        RoomyExactly(f, ParseStep(f, v).value, Passed(f[v.at], shorts));
      }
    }
  }

  /** The validator compares with the size of a filter, not of the stack: a filter that goes above it at once. */
  lemma GoesAbove(flags: u16, p: Packet, stack: seq<B.u32>)
    requires |stack| == DEPTH + 1
    ensures var f := [flags, 16 * 0x400 + NOPUSH];
      Accepted(f) && Run(f, Start(stack), p) == AboveStack && !Roomy(f, Parsing(1, DEPTH), 0)
  {
    var f := [flags, 16 * 0x400 + NOPUSH];
    assert ParseStep(f, Parsing(1, DEPTH)) == Some(Parsing(2, DEPTH + 1));
    assert Accepts(f, Parsing(2, DEPTH + 1));
    ExecuteForward(f, Start(stack), p);
    assert Execute(f, Start(stack), p) == Stop(AboveStack);
  }

  lemma RoomyStep(f: seq<u16>, v: Parsing, s: State, p: Packet)
    requires LockStep(v, s) && v.at < |f| && ParseStep(f, v).Some?
    requires ReachesNoHigher(f[v.at], s.sp) || Refuses(f[v.at])
    ensures match Execute(f, s, p)
      case Goto(next) => !Refuses(f[v.at]) && next.shorts == Passed(f[v.at], s.shorts)
      case Stop(end) => end.Answer?
  {}

  /** Every run of an accepted filter that leaves room ends with an answer. */
  lemma {:induction false} RoomyAnswers(f: seq<u16>, v: Parsing, s: State, p: Packet)
    requires Accepts(f, v) && LockStep(v, s) && Roomy(f, v, s.shorts)
    ensures Run(f, s, p).Answer?
    decreases |f| - v.at
  {
    if v.at < |f| {
      LockStepKept(f, v, s, p);
      RoomyStep(f, v, s, p);
      ExecuteForward(f, s, p);
      ParseForward(f, v);
      var e := Execute(f, s, p);
      if e.Goto? {
        RoomyAnswers(f, ParseStep(f, v).value, e.next, p);
      }
    }
  }

  // ---------------------------------------------------------------- a filter and what it means

  /** Accept the packets whose word number `n` has the value. */
  function WordFilter(flags: u16, n: nat, value: u16): seq<u16>
    requires n < PUSHHDR - PUSHWORD
  {
    [flags, PUSHWORD + n, 0x400 + PUSHLIT, value]
  }

  lemma WordFilterMeans(flags: u16, n: nat, value: u16, p: Packet, stack: seq<B.u32>)
    requires n < PUSHHDR - PUSHWORD && |stack| == DEPTH + 1
    ensures var f := WordFilter(flags, n, value);
      && Accepted(f)
      && Run(f, Start(stack), p) == Answer(n < p.dataCount && p.data(n) == value)
  {
    var f := WordFilter(flags, n, value);
    var v0 := Parsing(1, DEPTH);
    assert ParseStep(f, v0) == Some(Parsing(2, DEPTH - 1));
    assert ParseStep(f, Parsing(2, DEPTH - 1)) == Some(Parsing(4, DEPTH - 1));
    assert Accepts(f, Parsing(4, DEPTH - 1));
    var s1 := Start(stack);
    ExecuteForward(f, s1, p);
    var e1 := Execute(f, s1, p);
    if e1.Goto? {
      ExecuteForward(f, e1.next, p);
      var s3 := Execute(f, e1.next, p).next;
      assert s3.at == 4 && s3.stack[s3.sp] == Bool(p.data(n) == value);
      assert Run(f, s3, p) == Answer(p.data(n) == value);
      assert Run(f, s1, p) == Run(f, e1.next, p) == Run(f, s3, p);
    }
  }
}
