/**
  The state of the LS-8 machine: 255 memory cells, 8 general-purpose
  registers, a program counter and the three comparison flags E, L and G.

  Values are unbounded naturals: the machine never masks a value to 8 bits,
  so a sum or product simply grows.  Memory and register indices follow the
  host list semantics: an index past the end is an index error, which the
  model reports as a `Fault` instead of a precondition.
 */
module Machine {

  /** Number of memory cells. */
  const RAM_SIZE: nat := 255

  /** Number of general-purpose registers. */
  const REG_COUNT: nat := 8

  /** Why a run or a load stops abnormally. */
  datatype Fault =
    | MemoryIndex(address: nat)       // memory index past the last cell
    | RegisterIndex(index: nat)       // register index past the last register
    | UnsupportedAluOp(op: string)    // ALU operation tag it does not know
    | MalformedLiteral(text: string)  // text that is not a base-2 literal

  /** Either a value or the fault that prevented computing it. */
  datatype Result<+T> = Ok(value: T) | Err(fault: Fault) {

    predicate IsFailure() {
      Err?
    }

    function PropagateFailure<U>(): Result<U>
      requires Err?
    {
      Err(fault)
    }

    function Extract(): T
      requires Ok?
    {
      value
    }
  }

  type Memory = m: seq<nat> | |m| == RAM_SIZE witness seq(255, _ => 0)

  type Registers = r: seq<nat> | |r| == REG_COUNT witness seq(8, _ => 0)

  /** A flag is 0 or 1: it starts at 0 and is only ever set to 1. */
  type Bit = b: nat | b <= 1

  datatype State = State(ram: Memory, reg: Registers, pc: nat, E: Bit, L: Bit, G: Bit)

  /** A memory image holding `values` from address 0 on and 0 everywhere else. */
  function Image(values: seq<nat>): (m: Memory)
    requires |values| <= RAM_SIZE
    ensures forall i :: 0 <= i < |values| ==> m[i] == values[i]
    ensures forall i :: |values| <= i < RAM_SIZE ==> m[i] == 0
  {
    values + seq(RAM_SIZE - |values|, _ => 0)
  }

  /** The machine as it stands after loading `ram`: registers, PC and flags all 0. */
  function Boot(ram: Memory): (s: State)
    ensures s.ram == ram && s.pc == 0
    ensures forall i :: 0 <= i < REG_COUNT ==> s.reg[i] == 0
    ensures s.E == 0 && s.L == 0 && s.G == 0
  {
    State(ram, seq(REG_COUNT, _ => 0), 0, 0, 0, 0)
  }

  /** A freshly constructed machine: every memory cell reads as 0. */
  function Init(): (s: State)
    ensures forall a: nat :: a < RAM_SIZE ==> RamRead(s, a) == Ok(0)
    ensures forall a: nat :: RAM_SIZE <= a ==> RamRead(s, a).Err?
    ensures forall i :: 0 <= i < REG_COUNT ==> Reg(s, i) == Ok(0)
    ensures s.pc == 0 && s.E == 0 && s.L == 0 && s.G == 0
  {
    Boot(Image([]))
  }

  /** Reads one memory cell; an address past the last cell is a fault. */
  function RamRead(s: State, address: nat): (r: Result<nat>)
    ensures r.Ok? <==> address < RAM_SIZE
    ensures r.Ok? ==> r.value == s.ram[address]
    ensures r.Err? ==> r.fault == MemoryIndex(address)
  {
    if address < RAM_SIZE then Ok(s.ram[address]) else Err(MemoryIndex(address))
  }

  /** Writes one memory cell; nothing but that cell changes. */
  function RamWrite(s: State, value: nat, address: nat): (r: Result<State>)
    ensures r.Ok? <==> address < RAM_SIZE
    ensures r.Err? ==> r.fault == MemoryIndex(address)
    ensures r.Ok? ==> r.value.ram[address] == value
    ensures r.Ok? ==> forall a :: 0 <= a < RAM_SIZE && a != address ==> r.value.ram[a] == s.ram[a]
    ensures r.Ok? ==> r.value.reg == s.reg && r.value.pc == s.pc
    ensures r.Ok? ==> r.value.E == s.E && r.value.L == s.L && r.value.G == s.G
  {
    if address < RAM_SIZE then Ok(s.(ram := s.ram[address := value])) else Err(MemoryIndex(address))
  }

  /** Reading a cell just written gives the written value; every other cell reads as before. */
  lemma ReadAfterWrite(s: State, value: nat, address: nat, other: nat)
    requires address < RAM_SIZE
    ensures RamWrite(s, value, address).Ok?
    ensures RamRead(RamWrite(s, value, address).value, address) == Ok(value)
    ensures other != address ==>
      RamRead(RamWrite(s, value, address).value, other) == RamRead(s, other)
  {
  }

  /** Reads one register; an index past the last register is a fault. */
  function Reg(s: State, i: nat): (r: Result<nat>)
    ensures r.Ok? <==> i < REG_COUNT
    ensures r.Ok? ==> r.value == s.reg[i]
    ensures r.Err? ==> r.fault == RegisterIndex(i)
  {
    if i < REG_COUNT then Ok(s.reg[i]) else Err(RegisterIndex(i))
  }

  /** Registers other than `i` hold the same values in `s` and `t`. */
  ghost predicate OtherRegsSame(s: State, t: State, i: nat)
  {
    forall j :: 0 <= j < REG_COUNT && j != i ==> t.reg[j] == s.reg[j]
  }

  /** Stores `v` in register `i`; an index past the last register is a fault. */
  function SetReg(s: State, i: nat, v: nat): (r: Result<State>)
    ensures r.Ok? <==> i < REG_COUNT
    ensures r.Err? ==> r.fault == RegisterIndex(i)
    ensures r.Ok? ==> r.value.reg[i] == v && OtherRegsSame(s, r.value, i)
    ensures r.Ok? ==> r.value.ram == s.ram && r.value.pc == s.pc
    ensures r.Ok? ==> r.value.E == s.E && r.value.L == s.L && r.value.G == s.G
  {
    if i < REG_COUNT then Ok(s.(reg := s.reg[i := v])) else Err(RegisterIndex(i))
  }
}
