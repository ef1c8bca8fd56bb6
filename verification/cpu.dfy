/**
  The fetch-decode-execute cycle of the LS-8.

  Every cycle reads three cells, the instruction at PC and the two cells
  after it, before looking at the instruction; so a cycle whose PC is within
  two cells of the end of memory faults even if the instruction takes no
  operands.  The instruction byte is then compared with eight opcode
  constants.  A byte matching none of them has no branch at all: the host
  loop goes round again on the same state forever, which the model reports
  as `Stuck`.  No instruction writes memory.
 */
module Cpu {
  import opened Machine
  import opened Alu

  const PRN: nat := 0x47  // 0b01000111
  const LDI: nat := 0x82  // 0b10000010
  const HLT: nat := 0x01  // 0b00000001
  const MUL: nat := 0xA2  // 0b10100010
  const CMP: nat := 0xA7  // 0b10100111
  const JMP: nat := 0x54  // 0b01010100
  const JNE: nat := 0x56  // 0b01010110
  const JEQ: nat := 0x55  // 0b01010101

  /** The instruction bytes the cycle recognises. */
  const OPCODES: set<nat> := {PRN, LDI, HLT, MUL, CMP, JMP, JNE, JEQ}

  /** The instruction register and the two operand cells read by one fetch. */
  datatype Fetched = Fetched(ir: nat, opA: nat, opB: nat)

  /** What one cycle does. */
  datatype Outcome =
    | Continue(next: State, out: seq<nat>)  // the cycle completed; `out` is what it printed
    | Halted                                // HLT: the loop exits, state as it was
    | Stuck                                 // unknown opcode: the loop spins on this state forever
    | Crashed(fault: Fault)                 // an index error ends the run

  /** Each flag is at least what it was: flags go from 0 to 1 and never back. */
  ghost predicate FlagsGrow(s: State, t: State)
  {
    s.E <= t.E && s.L <= t.L && s.G <= t.G
  }

  /** Reads ram[pc], ram[pc + 1] and ram[pc + 2], in that order. */
  function Fetch(s: State): (r: Result<Fetched>)
    ensures r.Ok? <==> s.pc + 2 < RAM_SIZE
    ensures r.Ok? ==> r.value == Fetched(s.ram[s.pc], s.ram[s.pc + 1], s.ram[s.pc + 2])
    ensures r.Err? ==> r.fault == MemoryIndex(if s.pc < RAM_SIZE then RAM_SIZE else s.pc)
  {
    var ir :- RamRead(s, s.pc);
    var a :- RamRead(s, s.pc + 1);
    var b :- RamRead(s, s.pc + 2);
    Ok(Fetched(ir, a, b))
  }

  /** A completed ALU operation followed by advancing PC by `n`. */
  function Proceed(r: Result<State>, n: nat): Outcome
  {
    match r
    case Ok(t) => Continue(t.(pc := t.pc + n), [])
    case Err(f) => Crashed(f)
  }

  /** Sets PC to the value held in register `a`. */
  function JumpTo(s: State, a: nat): Outcome
  {
    match Reg(s, a)
    case Ok(target) => Continue(s.(pc := target), [])
    case Err(f) => Crashed(f)
  }

  /** Decodes and executes the fetched instruction `ir` with operand cells `a` and `b`. */
  function Execute(s: State, ir: nat, a: nat, b: nat): (r: Outcome)
    ensures r == Halted <==> ir == HLT
    ensures r == Stuck <==> ir !in OPCODES
    ensures r.Continue? ==> r.next.ram == s.ram && FlagsGrow(s, r.next)
    ensures r.Continue? ==> |r.out| == (if ir == PRN then 1 else 0)
    ensures r.Crashed? ==> r.fault.RegisterIndex? && REG_COUNT <= r.fault.index
  {
    if ir == LDI then
      match SetReg(s, a, b)
      case Ok(t) => Continue(t.(pc := s.pc + 3), [])
      case Err(f) => Crashed(f)
    else if ir == PRN then
      match Reg(s, a)
      case Ok(v) => Continue(s.(pc := s.pc + 2), [v])
      case Err(f) => Crashed(f)
    else if ir == HLT then
      Halted
    else if ir == MUL then
      Proceed(Apply("MUL", s, a, b), 3)
    else if ir == JMP then
      JumpTo(s, a)
    else if ir == CMP then
      Proceed(Apply("CMP", s, a, b), 3)
    else if ir == JEQ then
      if s.E == 1 then JumpTo(s, a) else Continue(s.(pc := s.pc + 2), [])
    else if ir == JNE then
      if s.E == 0 then JumpTo(s, a) else Continue(s.(pc := s.pc + 2), [])
    else
      Stuck
  }

  /** One pass of the run loop: fetch, then decode and execute. */
  function Step(s: State): (r: Outcome)
    ensures r == Halted <==> s.pc + 2 < RAM_SIZE && s.ram[s.pc] == HLT
    ensures r == Stuck <==> s.pc + 2 < RAM_SIZE && s.ram[s.pc] !in OPCODES
    ensures (r.Crashed? && r.fault.MemoryIndex?) <==> RAM_SIZE <= s.pc + 2
    ensures r.Continue? ==> r.next.ram == s.ram && FlagsGrow(s, r.next)
    ensures r.Continue? ==> |r.out| == (if s.ram[s.pc] == PRN then 1 else 0)
  {
    match Fetch(s)
    case Err(f) => Crashed(f)
    case Ok(i) => Execute(s, i.ir, i.opA, i.opB)
  }

  /** LDI a, b: reg[a] := b and PC advances by 3; nothing else changes. */
  lemma StepLdi(s: State)
    requires s.pc + 2 < RAM_SIZE && s.ram[s.pc] == LDI
    ensures var a, b := s.ram[s.pc + 1], s.ram[s.pc + 2];
      a < REG_COUNT ==>
        && Step(s).Continue? && Step(s).out == []
        && Step(s).next.reg[a] == b && OtherRegsSame(s, Step(s).next, a)
        && Step(s).next.pc == s.pc + 3 && Step(s).next.ram == s.ram
        && Step(s).next.E == s.E && Step(s).next.L == s.L && Step(s).next.G == s.G
    ensures var a := s.ram[s.pc + 1];
      REG_COUNT <= a ==> Step(s) == Crashed(RegisterIndex(a))
  {
  }

  /** PRN a: prints reg[a] and PC advances by 2; nothing else changes. */
  lemma StepPrn(s: State)
    requires s.pc + 2 < RAM_SIZE && s.ram[s.pc] == PRN
    ensures var a := s.ram[s.pc + 1];
      a < REG_COUNT ==> Step(s) == Continue(s.(pc := s.pc + 2), [s.reg[a]])
    ensures var a := s.ram[s.pc + 1];
      REG_COUNT <= a ==> Step(s) == Crashed(RegisterIndex(a))
  {
  }

  /** MUL a, b: reg[a] := reg[a] * reg[b] and PC advances by 3; other registers, flags and memory unchanged. */
  lemma StepMul(s: State)
    requires s.pc + 2 < RAM_SIZE && s.ram[s.pc] == MUL
    ensures var a, b := s.ram[s.pc + 1], s.ram[s.pc + 2];
      a < REG_COUNT && b < REG_COUNT ==>
        && Step(s).Continue? && Step(s).out == []
        && Step(s).next.reg[a] == s.reg[a] * s.reg[b] && OtherRegsSame(s, Step(s).next, a)
        && Step(s).next.pc == s.pc + 3 && Step(s).next.ram == s.ram
        && Step(s).next.E == s.E && Step(s).next.L == s.L && Step(s).next.G == s.G
    ensures var a, b := s.ram[s.pc + 1], s.ram[s.pc + 2];
      a != b && a < REG_COUNT && b < REG_COUNT ==> Step(s).next.reg[b] == s.reg[b]
    ensures var a, b := s.ram[s.pc + 1], s.ram[s.pc + 2];
      REG_COUNT <= a ==> Step(s) == Crashed(RegisterIndex(a))
    ensures var a, b := s.ram[s.pc + 1], s.ram[s.pc + 2];
      a < REG_COUNT <= b ==> Step(s) == Crashed(RegisterIndex(b))
  {
  }

  /**
    CMP a, b: sets E, L or G by comparing reg[a] with reg[b], never clears a
    flag, and advances PC by 3; registers and memory are untouched.
   */
  lemma StepCmp(s: State)
    requires s.pc + 2 < RAM_SIZE && s.ram[s.pc] == CMP
    requires s.ram[s.pc + 1] < REG_COUNT && s.ram[s.pc + 2] < REG_COUNT
    ensures Step(s).Continue? && Step(s).out == []
    ensures var a, b, t := s.ram[s.pc + 1], s.ram[s.pc + 2], Step(s).next;
      && t.reg == s.reg && t.ram == s.ram && t.pc == s.pc + 3
      && (t.E == 1 <==> s.E == 1 || s.reg[a] == s.reg[b])
      && (t.L == 1 <==> s.L == 1 || s.reg[a] < s.reg[b])
      && (t.G == 1 <==> s.G == 1 || s.reg[a] > s.reg[b])
    ensures s.E == 0 && s.L == 0 && s.G == 0 ==>
      Step(s).next.E + Step(s).next.L + Step(s).next.G == 1
  {
  }

  /** JMP a: PC := reg[a]; nothing else changes. */
  lemma StepJmp(s: State)
    requires s.pc + 2 < RAM_SIZE && s.ram[s.pc] == JMP
    ensures var a := s.ram[s.pc + 1];
      a < REG_COUNT ==> Step(s) == Continue(s.(pc := s.reg[a]), [])
    ensures var a := s.ram[s.pc + 1];
      REG_COUNT <= a ==> Step(s) == Crashed(RegisterIndex(a))
  {
  }

  /**
    JEQ and JNE are complements on E: in every state one of them jumps to
    reg[a] and the other advances PC by 2, and neither touches registers,
    flags or memory.  Only the jumping one reads register `a`.
   */
  lemma JumpsAreComplements(s: State, a: nat, b: nat)
    ensures var jump := JumpTo(s, a);
      var fall := Continue(s.(pc := s.pc + 2), []);
      && Execute(s, JEQ, a, b) == (if s.E == 1 then jump else fall)
      && Execute(s, JNE, a, b) == (if s.E == 1 then fall else jump)
    ensures a < REG_COUNT ==> JumpTo(s, a) == Continue(s.(pc := s.reg[a]), [])
    ensures REG_COUNT <= a ==> JumpTo(s, a) == Crashed(RegisterIndex(a))
  {
  }

  /** How a bounded run ended. */
  datatype Status =
    | Halt               // reached HLT
    | Spin               // reached an unknown opcode: the source loops forever here
    | Abort(fault: Fault)
    | OutOfFuel          // the step budget ran out first

  datatype RunResult = RunResult(status: Status, final: State, output: seq<nat>)

  /**
    Applies `step` at most `fuel` times from `s`, concatenating what each
    completed cycle printed.  The final state is the one at which the run
    stopped: for Halt, Spin and Abort it is the state whose own cycle halted,
    spun or faulted, so the output is only that of completed cycles.
   */
  function Iterate(step: State -> Outcome, s: State, fuel: nat): (r: RunResult)
    ensures r.status == Halt ==> step(r.final) == Halted
    ensures r.status == Spin ==> step(r.final) == Stuck
    ensures r.status.Abort? ==> step(r.final) == Crashed(r.status.fault)
    ensures fuel == 0 ==> r == RunResult(OutOfFuel, s, [])
    decreases fuel
  {
    if fuel == 0 then RunResult(OutOfFuel, s, [])
    else
      match step(s)
      case Halted => RunResult(Halt, s, [])
      case Stuck => RunResult(Spin, s, [])
      case Crashed(f) => RunResult(Abort(f), s, [])
      case Continue(t, out) =>
        var rest := Iterate(step, t, fuel - 1);
        RunResult(rest.status, rest.final, out + rest.output)
  }

  /** A run that stopped before its budget ran out gives the same result with any larger budget. */
  lemma {:induction false} IterateMoreFuel(step: State -> Outcome, s: State, fuel: nat, extra: nat)
    requires Iterate(step, s, fuel).status != OutOfFuel
    ensures Iterate(step, s, fuel + extra) == Iterate(step, s, fuel)
    decreases fuel
  {
    if step(s).Continue? {
      IterateMoreFuel(step, step(s).next, fuel - 1, extra);
    }
  }

  /** Running `n` cycles and then `m` more is the same as running `n + m` cycles. */
  lemma {:induction false} IterateAppend(step: State -> Outcome, s: State, n: nat, m: nat)
    requires Iterate(step, s, n).status == OutOfFuel
    ensures var first := Iterate(step, s, n);
      var second := Iterate(step, first.final, m);
      Iterate(step, s, n + m) == RunResult(second.status, second.final, first.output + second.output)
    decreases n
  {
    if n == 0 {
      var second := Iterate(step, s, m);
      assert [] + second.output == second.output;
    } else {
      var t, out := step(s).next, step(s).out;
      var rest := Iterate(step, t, n - 1);
      var second := Iterate(step, rest.final, m);
      IterateAppend(step, t, n - 1, m);
      assert out + (rest.output + second.output) == (out + rest.output) + second.output;
    }
  }

  /** The run loop, bounded to at most `fuel` cycles, collecting what PRN prints. */
  function Run(s: State, fuel: nat): (r: RunResult)
    ensures r.status == Halt ==> Step(r.final) == Halted
    ensures r.status == Spin ==> Step(r.final) == Stuck
    ensures r.status.Abort? ==> Step(r.final) == Crashed(r.status.fault)
  {
    Iterate(Step, s, fuel)
  }

  /**
    Along a run memory never changes, no flag is ever cleared, and each cycle
    prints at most one value.
   */
  lemma {:induction false} RunKeepsMemoryAndFlags(s: State, fuel: nat)
    ensures Run(s, fuel).final.ram == s.ram
    ensures FlagsGrow(s, Run(s, fuel).final)
    ensures |Run(s, fuel).output| <= fuel
    decreases fuel
  {
    if 0 < fuel && Step(s).Continue? {
      RunKeepsMemoryAndFlags(Step(s).next, fuel - 1);
    }
  }

  /** Once E is 1 it stays 1 for the rest of the run: a later JEQ always jumps. */
  lemma EqualFlagStaysSet(s: State, fuel: nat)
    requires s.E == 1
    ensures Run(s, fuel).final.E == 1
  {
    RunKeepsMemoryAndFlags(s, fuel);
  }

  /** A run whose first cycle completes is that cycle's output followed by the rest of the run. */
  lemma RunContinue(s: State, t: State, out: seq<nat>, fuel: nat)
    requires 0 < fuel && Step(s) == Continue(t, out)
    ensures Run(s, fuel).status == Run(t, fuel - 1).status
    ensures Run(s, fuel).final == Run(t, fuel - 1).final
    ensures Run(s, fuel).output == out + Run(t, fuel - 1).output
  {
  }

  /** HLT stops the run at once, with the state unchanged and nothing printed. */
  lemma HaltStops(s: State, fuel: nat)
    requires s.pc + 2 < RAM_SIZE && s.ram[s.pc] == HLT && 0 < fuel
    ensures Step(s) == Halted
    ensures Run(s, fuel) == RunResult(Halt, s, [])
  {
  }

  /** An unknown opcode makes no progress: the state never changes and nothing is printed. */
  lemma UnknownOpcodeSpins(s: State, fuel: nat)
    requires s.pc + 2 < RAM_SIZE && s.ram[s.pc] !in OPCODES && 0 < fuel
    ensures Step(s) == Stuck
    ensures Run(s, fuel) == RunResult(Spin, s, [])
  {
  }

  /** A run that stopped before its budget ran out gives the same result with any larger budget. */
  lemma RunMoreFuel(s: State, fuel: nat, extra: nat)
    requires Run(s, fuel).status != OutOfFuel
    ensures Run(s, fuel + extra) == Run(s, fuel)
  {
    IterateMoreFuel(Step, s, fuel, extra);
  }

  /** Running `n` cycles and then `m` more is the same as running `n + m` cycles. */
  lemma RunAppend(s: State, n: nat, m: nat)
    requires Run(s, n).status == OutOfFuel
    ensures var first := Run(s, n);
      var second := Run(first.final, m);
      Run(s, n + m) == RunResult(second.status, second.final, first.output + second.output)
  {
    IterateAppend(Step, s, n, m);
  }
}
