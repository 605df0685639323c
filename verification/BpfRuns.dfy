/**
  * Runs of every program that bpf_validate accepts (device/net_io.c).  It means to admit programs whose
  * jumps go forward and whose scratch indices are in range; it does not check that of all instructions, and
  * here is what exactly follows from what it does check.
  */
module BpfRuns {
  import opened Bpf

  /**
    * Where a run is: on the way, at its end, before the first instruction, or at an instruction that names a
    * scratch word that does not exist.
    */
  datatype Outcome = Running(s: State) | Ended(end: End) | Astray(pc: int) | NoWord(pc: int)

  /** One turn of the loop of bpf_do_filter. */
  ghost function Turn(f: seq<Insn>, s: State, p: Packet): Outcome
    requires Accepted(f) && Inside(f, s)
  {
    assert InsnOk(f, s.pc);
    if !IndexOk(f[s.pc]) then NoWord(s.pc)
    else
      match Execute(f[s.pc], s, p)
      case Stop(end) => Ended(end)
      case Goto(next) => if next.pc < 1 then Astray(next.pc) else Running(next)
  }

  /** At most `n` turns from any state whose instruction is not before the first; behind the last the loop ends. */
  ghost function RunFor(f: seq<Insn>, s: State, p: Packet, n: nat): Outcome
    requires Accepted(f) && 1 <= s.pc && |s.mem| == MEMWORDS
    decreases n
  {
    if s.pc >= |f| then Ended(Reject)
    else if n == 0 then Running(s)
    else
      match Turn(f, s, p)
      case Running(next) => RunFor(f, next, p, n - 1)
      case o => o
  }

  // ---------------------------------------------------------------- one turn

  /** A turn goes forward and stays in the code, or ends the run. */
  ghost predicate Fine(f: seq<Insn>, s: State, p: Packet)
    requires Accepted(f) && Inside(f, s)
  {
    match Turn(f, s, p)
    case Running(next) => s.pc < next.pc < |f|
    case o => o.Ended?
  }

  /** An accepted program never leaves the code behind its end; it does so before it exactly by such a jump. */
  lemma TurnStays(f: seq<Insn>, s: State, p: Packet)
    requires Accepted(f) && Inside(f, s)
    ensures Turn(f, s, p).Running? ==> Inside(f, Turn(f, s, p).s)
    ensures Turn(f, s, p).Astray? <==> f[s.pc].code == JA && s.pc + 1 + Signed(f[s.pc].k) < 1
    ensures Turn(f, s, p).NoWord? <==> f[s.pc].code in {STX, LDX_MEM} && f[s.pc].k >= MEMWORDS
    ensures Fine(f, s, p) <==> TameAt(f[s.pc])
  {
    assert InsnOk(f, s.pc);
    if IndexOk(f[s.pc]) {
      BackJumps(f, s, p);
    }
  }

  predicate TameAt(i: Insn) { IndexOk(i) && (i.code == JA ==> Signed(i.k) >= 0) }

  function Idle(pc: int): State { State(pc, 0, 0, seq(MEMWORDS, _ => 0)) }

  /**
    * The exact condition: from every state every turn goes forward and stays in the code, exactly if no
    * jump is negative and no scratch index too large.
    */
  lemma TameExactly(f: seq<Insn>)
    requires Accepted(f)
    ensures Tame(f) <==> forall s, p | Inside(f, s) :: Fine(f, s, p)
  {
    if Tame(f) {
      forall s, p | Inside(f, s) ensures Fine(f, s, p) {
        TurnStays(f, s, p);
      }
    } else {
      var i :| 1 <= i < |f| && !TameAt(f[i]);
      var p := Packet(0, 0, _ => 0, _ => 0);
      TurnStays(f, Idle(i), p);
    }
  }

  // ---------------------------------------------------------------- whole runs

  /** No run of an accepted program comes behind its end; one that leaves the code is before its beginning. */
  lemma {:induction false} RunStays(f: seq<Insn>, s: State, p: Packet, n: nat)
    requires Accepted(f) && Inside(f, s)
    ensures match RunFor(f, s, p, n)
      case Running(t) => Inside(f, t)
      case Ended(end) => !end.Reject? ==> end.length <= p.wirelen
      case Astray(pc) => pc < 1
      case NoWord(pc) => 1 <= pc < |f| && f[pc].code in {STX, LDX_MEM} && f[pc].k >= MEMWORDS
    decreases n
  {
    if n > 0 {
      TurnStays(f, s, p);
      assert InsnOk(f, s.pc);
      var o := Turn(f, s, p);
      if o.Running? {
        RunStays(f, o.s, p, n - 1);
      }
    }
  }

  /** A program whose every turn is fine ends in no more turns than it has instructions left, as `Run` says. */
  lemma {:induction false} TameRuns(f: seq<Insn>, s: State, p: Packet, n: nat)
    requires Runnable(f) && Inside(f, s) && n >= |f| - s.pc
    ensures RunFor(f, s, p, n) == Ended(Run(f, s, p))
    decreases n
  {
    Progress(f, s, p);
    var e := Execute(f[s.pc], s, p);
    if e.Goto? {
      TameRuns(f, e.next, p, n - 1);
    }
  }

  /** More turns do not change how a run ended. */
  lemma {:induction false} EndedStays(f: seq<Insn>, s: State, p: Packet, n: nat, m: nat)
    requires Accepted(f) && 1 <= s.pc && |s.mem| == MEMWORDS && n <= m && RunFor(f, s, p, n).Ended?
    ensures RunFor(f, s, p, m) == RunFor(f, s, p, n)
    decreases n
  {
    if s.pc < |f| {
      var o := Turn(f, s, p);
      if o.Running? {
        EndedStays(f, o.s, p, n - 1, m - 1);
      }
    }
  }

  /** The loop of bpf_do_filter, for every accepted program and every packet for which it ends. */
  method Interpret(f: seq<Insn>, p: Packet, mem: seq<u32>, ghost n: nat) returns (end: End)
    requires Accepted(f) && |mem| == MEMWORDS && RunFor(f, Start(mem), p, n).Ended?
    ensures RunFor(f, Start(mem), p, n) == Ended(end)
    ensures !end.Reject? ==> end.length <= p.wirelen
  {
    var s := Start(mem);
    ghost var left := n;
    if 1 < |f| {
      RunStays(f, s, p, n);
    }
    while s.pc < |f|
      invariant 1 <= s.pc && |s.mem| == MEMWORDS && RunFor(f, s, p, left) == RunFor(f, Start(mem), p, n)
      decreases left
    {
      TurnStays(f, s, p);
      assert InsnOk(f, s.pc);
      match Execute(f[s.pc], s, p)
      case Goto(next) => s, left := next, left - 1;
      case Stop(e) => return e;
    }
    end := Reject;
  }

  // ---------------------------------------------------------------- accepted programs that are not tame

  /** A program of one jump. */
  function JumpBy(k: u32): seq<Insn> { [Insn(1, 0, 0, 0), Insn(JA, 0, 0, k), Insn(RET_K, 0, 0, 0)] }

  lemma JumpAccepted(k: u32)
    requires k >= 0x8000_0000
    ensures Accepted(JumpBy(k))
  {
    var f := JumpBy(k);
    assert OnlyMatch(f, |f|, 0);
    assert InsnOk(f, 1) && InsnOk(f, 2);
  }

  /** A jump to itself is accepted, and its run does not end. */
  lemma {:induction false} NeverEnds(s: State, p: Packet, n: nat)
    requires s.pc == 1 && |s.mem| == MEMWORDS
    ensures Accepted(JumpBy(0xffff_ffff)) && RunFor(JumpBy(0xffff_ffff), s, p, n) == Running(s)
    decreases n
  {
    JumpAccepted(0xffff_ffff);
    if n > 0 {
      assert Turn(JumpBy(0xffff_ffff), s, p) == Running(s);
      NeverEnds(s, p, n - 1);
    }
  }

  /** A jump far back is accepted, and leaves the code before its beginning. */
  lemma LeavesCode(s: State, p: Packet)
    requires s.pc == 1 && |s.mem| == MEMWORDS
    ensures Accepted(JumpBy(0xffff_ff00)) && Turn(JumpBy(0xffff_ff00), s, p) == Astray(-254)
  {
    JumpAccepted(0xffff_ff00);
  }

  /** An index register can be stored in a scratch word that does not exist. */
  lemma StoresNowhere(s: State, p: Packet)
    requires s.pc == 1 && |s.mem| == MEMWORDS
    ensures var f := [Insn(1, 0, 0, 0), Insn(STX, 0, 0, MEMWORDS), Insn(RET_K, 0, 0, 0)];
      Accepted(f) && Turn(f, s, p) == NoWord(1)
  {
    var f := [Insn(1, 0, 0, 0), Insn(STX, 0, 0, MEMWORDS), Insn(RET_K, 0, 0, 0)];
    assert OnlyMatch(f, |f|, 0);
    assert InsnOk(f, 1) && InsnOk(f, 2);
  }
}
