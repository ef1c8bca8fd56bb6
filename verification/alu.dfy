/**
  The arithmetic/logic unit: ADD, MUL and CMP on two register operands.
  Operand registers are read in order, first A and then B, so an index
  fault reports A whenever both are out of range.  CMP sets one flag and
  leaves the other two as they were; it never clears a flag.
 */
module Alu {
  import opened Machine

  /** The two operand values, register A read before register B. */
  function Operands(s: State, a: nat, b: nat): (r: Result<(nat, nat)>)
    ensures r.Ok? <==> a < REG_COUNT && b < REG_COUNT
    ensures a >= REG_COUNT ==> r == Err(RegisterIndex(a))
    ensures a < REG_COUNT <= b ==> r == Err(RegisterIndex(b))
    ensures r.Ok? ==> r.value == (s.reg[a], s.reg[b])
  {
    var x :- Reg(s, a);
    var y :- Reg(s, b);
    Ok((x, y))
  }

  /** The register file, PC, flags and memory are unchanged except register `i`. */
  ghost predicate OnlyRegChanged(s: State, t: State, i: nat)
  {
    && OtherRegsSame(s, t, i)
    && t.ram == s.ram && t.pc == s.pc
    && t.E == s.E && t.L == s.L && t.G == s.G
  }

  /** reg[a] += reg[b], with no wrap-around. */
  function Add(s: State, a: nat, b: nat): (r: Result<State>)
    ensures r.Ok? <==> a < REG_COUNT && b < REG_COUNT
    ensures r.Err? ==> r == Operands(s, a, b).PropagateFailure()
    ensures r.Ok? ==> r.value.reg[a] == s.reg[a] + s.reg[b] && OnlyRegChanged(s, r.value, a)
  {
    var (x, y) :- Operands(s, a, b);
    Ok(s.(reg := s.reg[a := x + y]))
  }

  /** reg[a] *= reg[b], with no wrap-around. */
  function Multiply(s: State, a: nat, b: nat): (r: Result<State>)
    ensures r.Ok? <==> a < REG_COUNT && b < REG_COUNT
    ensures r.Err? ==> r == Operands(s, a, b).PropagateFailure()
    ensures r.Ok? ==> r.value.reg[a] == s.reg[a] * s.reg[b] && OnlyRegChanged(s, r.value, a)
  {
    var (x, y) :- Operands(s, a, b);
    Ok(s.(reg := s.reg[a := x * y]))
  }

  /**
    Compares reg[a] with reg[b]: equal sets E, less sets L, greater sets G.
    Each flag afterwards is its old value OR-ed with its own test, so a flag
    that was already 1 stays 1.
   */
  function Compare(s: State, a: nat, b: nat): (r: Result<State>)
    ensures r.Ok? <==> a < REG_COUNT && b < REG_COUNT
    ensures r.Err? ==> r == Operands(s, a, b).PropagateFailure()
    ensures r.Ok? ==> r.value.reg == s.reg && r.value.ram == s.ram && r.value.pc == s.pc
    ensures r.Ok? ==> (r.value.E == 1 <==> s.E == 1 || s.reg[a] == s.reg[b])
    ensures r.Ok? ==> (r.value.L == 1 <==> s.L == 1 || s.reg[a] < s.reg[b])
    ensures r.Ok? ==> (r.value.G == 1 <==> s.G == 1 || s.reg[a] > s.reg[b])
  {
    var (x, y) :- Operands(s, a, b);
    if x == y then Ok(s.(E := 1))
    else if x <= y then Ok(s.(L := 1))
    else Ok(s.(G := 1))
  }

  /** The ALU entry point: dispatches on the operation tag, and any other tag is a fault. */
  function Apply(op: string, s: State, a: nat, b: nat): (r: Result<State>)
    ensures op !in {"ADD", "MUL", "CMP"} ==> r == Err(UnsupportedAluOp(op))
    ensures op == "ADD" ==> r == Add(s, a, b)
    ensures op == "MUL" ==> r == Multiply(s, a, b)
    ensures op == "CMP" ==> r == Compare(s, a, b)
  {
    if op == "ADD" then Add(s, a, b)
    else if op == "MUL" then Multiply(s, a, b)
    else if op == "CMP" then Compare(s, a, b)
    else Err(UnsupportedAluOp(op))
  }

  /** Starting from cleared flags, a comparison leaves exactly one flag set. */
  lemma CompareFromClearedSetsOneFlag(s: State, a: nat, b: nat)
    requires a < REG_COUNT && b < REG_COUNT
    requires s.E == 0 && s.L == 0 && s.G == 0
    ensures Compare(s, a, b).Ok?
    ensures Compare(s, a, b).value.E + Compare(s, a, b).value.L + Compare(s, a, b).value.G == 1
  {
  }

  /** Comparing a register with itself always sets E. */
  lemma CompareSelfSetsEqual(s: State, a: nat)
    requires a < REG_COUNT
    ensures Compare(s, a, a).Ok? && Compare(s, a, a).value.E == 1
  {
  }

  /**
    Flags are never cleared: after an equal comparison and then a less-than
    comparison, E and L are both 1, so a later JEQ still jumps.
   */
  lemma CompareKeepsStaleFlags(s: State, a: nat, b: nat)
    requires a < REG_COUNT && b < REG_COUNT && s.reg[a] < s.reg[b]
    requires s.E == 0 && s.L == 0 && s.G == 0
    ensures var t := Compare(Compare(s, a, a).value, a, b);
      t.Ok? && t.value.E == 1 && t.value.L == 1 && t.value.G == 0
  {
  }
}
