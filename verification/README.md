# LS-8 virtual machine, modelled in Dafny

The LS-8 is a small 8-opcode virtual machine. Its whole implementation is one
class, `CPU` in `ls8/cpu.py`. The machine has the following state:

- 255 memory cells;
- 8 general-purpose registers;
- a program counter (PC);
- three comparison flags, E, L and G.

A program is a text file of base-2 literals, one per line, with `#` comments.
The loader places it in memory from address 0. `run` then fetches three cells
at PC, decodes the first against eight opcode constants and executes it. It
stops at HLT.

This project models that class:

| file | module | contents |
|---|---|---|
| `machine.dfy` | `Machine` | the state; `ram_read` and `ram_write`; index faults |
| `alu.dfy` | `Alu` | `alu` with ADD, MUL, CMP and the unsupported-operation fault |
| `cpu.dfy` | `Cpu` | one pass of the `run` loop as the pure `Step`; a fuel-bounded `Run` that collects what PRN prints |
| `loader.dfy` | `Loader` | the line-by-line logic of `load`, as a pure function from lines to memory |
| `programs.dfy` | `Programs` | whole programs run end to end |

Some choices follow the code and are stated in the contracts:

- **Values are unbounded naturals.** Nothing masks to 8 bits, so ADD and MUL
  never wrap, and a literal wider than 8 digits is stored whole.
- **Index errors become faults.** Reading past the last memory cell or register
  raises an index error in the code. It is modelled as a `Fault` in a `Result`,
  or as a `Crashed` step outcome, not as a precondition. Every fetch reads
  `ram[pc]`, `ram[pc+1]` and `ram[pc+2]`, so a step faults whenever
  `pc + 2 >= 255`, even for HLT.
- **CMP never clears a flag.** It sets exactly one of E, L and G and leaves the
  other two as they were. Flags therefore accumulate across comparisons. The
  `<=` of the less-than branch behaves as `<`, because equality is tested
  first.
- **JEQ and JNE read register A only when they jump.** A bad register index on
  the branch that does not jump is harmless.
- **An unknown opcode matches no branch.** The loop goes round again on the same
  state forever. `Step` reports this as `Stuck` and `Run` as `Spin`.
- **The loader works in two passes.** It first parses every line and keeps each
  value's `08b` text. Only then does it parse those texts again and write them.
  So a malformed line anywhere fails the load before any cell is written. More
  than 255 values fail at address 255.

The comments on the CMP branches (ls8/cpu.py:81, 84, 88) say each flag is set
"zero otherwise", but the code never assigns 0 to a flag. The model follows the
code.

## Model

| member | source | states |
|---|---|---|
| Machine.Init | ls8/cpu.py:18-25 | a new machine reads 0 at every address below 255, faults at every address from 255 on, holds 0 in all eight registers, and has PC and every flag at 0 |
| Machine.RamRead | ls8/cpu.py:27-28 | reading succeeds exactly for addresses below 255 and yields that cell; any other address is a memory index fault for that address |
| Machine.RamWrite | ls8/cpu.py:30-31 | writing succeeds exactly for addresses below 255; the cell holds the value afterwards, every other cell, register, PC and flag is unchanged; out of range is a memory index fault |
| Machine.ReadAfterWrite | ls8/cpu.py:27-31 | after a write, reading the written address gives the value and reading any other address gives what it gave before |
| Machine.Reg | ls8/cpu.py:124 | reading register i succeeds exactly for i < 8 and yields its value; any other index is a register index fault for that index |
| Machine.SetReg | ls8/cpu.py:121 | storing into register i succeeds exactly for i < 8, changes only that register, and faults with index i otherwise |
| Alu.Operands | ls8/cpu.py:76 | register A is read before register B: an out-of-range A is reported even when B is out of range too |
| Alu.Add | ls8/cpu.py:75-76 | reg[a] becomes the sum of the old reg[a] and reg[b] with no wrap-around; nothing else changes; a bad index is the fault of the first bad operand |
| Alu.Multiply | ls8/cpu.py:78-79 | reg[a] becomes the product of the old reg[a] and reg[b] with no wrap-around; nothing else changes; a bad index is the fault of the first bad operand |
| Alu.Compare | ls8/cpu.py:80-89 | each flag afterwards is 1 exactly when it was 1 before or its own test (equal, less, greater) holds; registers, memory and PC are unchanged |
| Alu.Apply | ls8/cpu.py:72-91 | "ADD", "MUL" and "CMP" select their operation; any other tag is an unsupported-operation fault |
| Alu.CompareFromClearedSetsOneFlag | ls8/cpu.py:80-89 | from cleared flags a comparison leaves exactly one of E, L, G set |
| Alu.CompareSelfSetsEqual | ls8/cpu.py:82-83 | comparing a register with itself sets E |
| Alu.CompareKeepsStaleFlags | ls8/cpu.py:80-89 | an equal comparison followed by a less-than comparison leaves both E and L set, because no flag is ever cleared |
| Cpu.Fetch | ls8/cpu.py:116-118 | fetching succeeds exactly when pc + 2 < 255 and yields the three cells from PC; otherwise it faults at the first index past the end |
| Cpu.Execute | ls8/cpu.py:120-155 | the decoded instruction halts exactly for HLT and is stuck exactly for a byte outside the eight opcodes; a completed instruction leaves memory unchanged, never clears a flag, and prints one value for PRN and none otherwise; any other failure is a register index fault |
| Cpu.Step | ls8/cpu.py:115-155 | one loop pass halts exactly at HLT within bounds, is stuck exactly at an unknown opcode within bounds, and faults on memory exactly when pc + 2 >= 255; a completed pass keeps memory and never clears a flag |
| Cpu.StepLdi | ls8/cpu.py:120-122 | LDI a,b sets reg[a] to b and advances PC by 3; other registers, flags and memory are unchanged; a >= 8 faults |
| Cpu.StepPrn | ls8/cpu.py:123-125 | PRN a prints reg[a] and advances PC by 2 with nothing else changed; a >= 8 faults |
| Cpu.StepMul | ls8/cpu.py:129-131 | MUL a,b sets reg[a] to the old reg[a] times reg[b] and advances PC by 3; reg[b] is unchanged when a != b, as are other registers, flags and memory; a bad index faults, A first |
| Cpu.StepCmp | ls8/cpu.py:138-141 | CMP a,b sets each flag to its old value OR its test and advances PC by 3; registers and memory are unchanged; from cleared flags exactly one flag is set |
| Cpu.StepJmp | ls8/cpu.py:134-136 | JMP a sets PC to reg[a] with nothing else changed; a >= 8 faults |
| Cpu.JumpsAreComplements | ls8/cpu.py:143-155 | in every state one of JEQ and JNE jumps to reg[a] and the other advances PC by 2, according to E; neither changes registers, flags or memory |
| Cpu.HaltStops | ls8/cpu.py:126-127 | HLT ends the run at once with the state unchanged and nothing printed |
| Cpu.UnknownOpcodeSpins | ls8/cpu.py:115-155 | an opcode outside the eight makes no progress: the run stops as Spin on the unchanged state with nothing printed |
| Cpu.Iterate | ls8/cpu.py:115 | a bounded loop reports Halt, Spin or Abort only at a state whose own step halts, is stuck, or faults with that fault; with no fuel it stops at once |
| Cpu.IterateMoreFuel | ls8/cpu.py:115 | a loop that stopped on its own gives the same result with any larger budget |
| Cpu.IterateAppend | ls8/cpu.py:115 | running n cycles and then m more equals running n + m cycles, with the outputs concatenated |
| Cpu.Run | ls8/cpu.py:113-155 | a run ends in Halt, Spin or Abort only at a state whose cycle halts, is stuck, or faults with that fault |
| Cpu.RunKeepsMemoryAndFlags | ls8/cpu.py:115-155 | along any run memory is unchanged, no flag goes from 1 to 0, and at most one value is printed per cycle |
| Cpu.EqualFlagStaysSet | ls8/cpu.py:80-89 | once E is set it stays set for the rest of the run |
| Cpu.RunContinue | ls8/cpu.py:115-155 | a run whose first cycle completes is that cycle's output followed by the run from the next state |
| Cpu.RunMoreFuel | ls8/cpu.py:113-155 | a run that stopped on its own gives the same result with any larger budget |
| Cpu.RunAppend | ls8/cpu.py:113-155 | running n cycles and then m more equals running n + m cycles, with the outputs concatenated |
| Loader.BeforeComment | ls8/cpu.py:53 | the text kept from a line is a prefix of the line without `#`, and the line continues with `#` if it is longer |
| Loader.LeadingSpaces | ls8/cpu.py:54 | counts exactly the whitespace characters at the start of the text |
| Loader.ContentEnd | ls8/cpu.py:54 | marks the end of the text without its trailing whitespace |
| Loader.StripSpec | ls8/cpu.py:54 | stripping yields the slice between the leading and trailing whitespace; that slice neither starts nor ends with whitespace; it is empty exactly when the text is all whitespace |
| Loader.ParseBase2 | ls8/cpu.py:57 | an optional `0b`/`0B` prefix followed by at least one binary digit parses to the value of those digits; every other text, the empty one included, is a malformed-literal fault naming the text |
| Loader.ToBinary | ls8/cpu.py:58 | the binary text of v has digits whose value is v, with no leading zero |
| Loader.ZerosValue | ls8/cpu.py:58 | a run of zeros has value 0 |
| Loader.LeadingZeros | ls8/cpu.py:58 | zero padding on the left does not change a binary value |
| Loader.Format08b | ls8/cpu.py:58 | the `08b` text of v has at least 8 binary digits whose value is v |
| Loader.FormatRoundTrip | ls8/cpu.py:57-69 | parsing the `08b` text of v, with or without the `0b` prefix, gives v back |
| Loader.Literals | ls8/cpu.py:52-56 | blank lines are skipped, so no kept literal is empty and there are at most as many as lines |
| Loader.Values | ls8/cpu.py:52-58 | a well-formed program has one value per kept literal |
| Loader.ValuesCons | ls8/cpu.py:52-58 | in a well-formed program the first line's value, unless the line is blank, comes ahead of the rest's values, and the rest is well formed too |
| Loader.ParsedPointwiseAppend | ls8/cpu.py:57-58 | literal-by-literal parse results still hold when one run of literals is placed before another |
| Loader.ValuesPointwise | ls8/cpu.py:52-58 | value i of a well-formed program is what its literal i parses to |
| Loader.LiteralsCons | ls8/cpu.py:52-56 | the first line's text, unless blank, comes ahead of the rest's literals |
| Loader.LiteralsConsAppend | ls8/cpu.py:52-56 | the same, for a first run of lines followed by a second |
| Loader.LiteralsConcat | ls8/cpu.py:52-56 | the literals of two runs of lines are those of the first followed by those of the second, so lines are kept in file order |
| Loader.LiteralsArePayloads | ls8/cpu.py:52-56 | the text of every non-blank line is kept as a literal, and every literal is the text of some line |
| Loader.Formats | ls8/cpu.py:58 | element i is the `08b` text of value i |
| Loader.LinesCons | ls8/cpu.py:52-58 | the first line contributes its literal, if any, ahead of the rest's literals and values, and the program is well formed exactly when that literal parses and the rest is well formed |
| Loader.FormatsCons | ls8/cpu.py:58 | formatting a value followed by more values puts its `08b` text first |
| Loader.ParseProgram | ls8/cpu.py:52-58 | the first pass succeeds exactly when every non-blank line is a literal, and then yields the `08b` texts of the values in order; on failure it names a non-blank line's text that does not parse |
| Loader.FillMemory | ls8/cpu.py:66-70 | the second pass succeeds exactly when the texts fit from the start address and all parse; then cell address+i holds text i's value and other cells are unchanged; overflow faults at address 255 |
| Loader.FillFormatted | ls8/cpu.py:66-70 | writing the `08b` texts of the values into a zeroed memory gives the memory image of the values, or faults at address 255 when there are more than 255 |
| Loader.Load | ls8/cpu.py:52-70 | loading succeeds exactly when every non-blank line is a literal and there are at most 255 of them; the k-th value lands at address k and every other cell is 0; a malformed line is a malformed-literal fault; overflow faults at address 255 |
| Loader.BeforeCommentPrefix | ls8/cpu.py:53 | cutting text without `#` that is followed by a `#` comment gives back that text |
| Loader.StripPadded | ls8/cpu.py:54 | binary digits with whitespace on both sides strip to exactly the digits |
| Loader.FormatsReparse | ls8/cpu.py:58-69 | every `08b` text of a value list, prefixed with `0b`, parses back to its value |
| Loader.PayloadOfLiteral | ls8/cpu.py:53-54 | a line of binary digits with whitespace around it and an optional comment after contributes exactly those digits |
| Loader.PayloadOfBlank | ls8/cpu.py:53-56 | a line of whitespace, optionally followed by a comment, contributes nothing |
| Loader.FormattedLines | ls8/cpu.py:52-58 | writing values as one `08b` line each gives a well-formed program text whose values are those values |
| Loader.LoadFormatted | ls8/cpu.py:52-70 | loading the `08b` lines of at most 255 values gives the memory image of those values |
| Machine.Image | ls8/cpu.py:66-70 | a memory image holds the values from address 0 and 0 in every other cell |
| Machine.Boot | ls8/cpu.py:21-25 | after loading, registers, PC and flags are 0 and memory is the loaded image |
| Programs.Print8PrintsEight | ls8/cpu.py:40-48 | LDI R0,8; PRN R0; HLT prints exactly 8 and halts with R0 = 8 and PC = 5 |
| Programs.Print8FromText | ls8/cpu.py:40-48 | the same program, written as `08b` lines and loaded, loads to its image and prints exactly 8 |
| Programs.Mult8x9PrintsSeventyTwo | ls8/cpu.py:120-131 | LDI R0,8; LDI R1,9; MUL R0,R1; PRN R0; HLT prints exactly 72 and halts |
| Programs.EqualBranchLoads | ls8/cpu.py:120-122 | the two leading LDIs of the branch program set R0 = 5 and R1 = y and leave the flags clear |
| Programs.EqualBranchCompares | ls8/cpu.py:120-141 | LDI R2,15 followed by CMP R0,R1 from clear flags sets E exactly when y = 5 |
| Programs.EqualBranchJumps | ls8/cpu.py:143-149 | JEQ R2 jumps to the PRN when E is set, which prints 5 before the HLT; otherwise it falls through to the HLT; both paths halt |
| Programs.EqualBranchPrintsWhenEqual | ls8/cpu.py:115-155 | the compare-and-branch program prints 5 exactly when y = 5, and halts either way |

## Left out

- File handling: opening the file, the `FileNotFoundError` handler and its exit status 2 (ls8/cpu.py:50-62). `Load` takes the lines of the file as a sequence of strings.
- Console output: `print(program)` (ls8/cpu.py:64) and `trace` (ls8/cpu.py:93-111) are debugging output only. The `print` in PRN becomes an element appended to the run's output sequence.
- The `sys.exit(1)` after `break` (ls8/cpu.py:128), because it can never run.
- Unbounded execution: `Run` takes a cycle budget, and `OutOfFuel` reports that the budget ran out. A program that spins or jumps in a loop never stops in the code. The model reports a spin at once and a jump loop as `OutOfFuel`.
- Loader.ParseBase2: accepts only an optional `0b`/`0B` prefix followed by binary digits. The host `int(text, 2)` also accepts underscores between digits and a leading sign; these are treated as malformed here. A negative literal passes the code's first pass and then fails its second; here it fails the first.
- Loader.IsSpace: covers the ASCII characters that the host `strip()` removes. Non-ASCII whitespace is left out.
- Loader.Load: models loading into a freshly constructed machine. `FillMemory` takes any memory. When a load overflows, the code has already written cells 0 to 254 before its index error. The model returns only the fault.
- Exception messages are not modelled. Each kind of error becomes its own `Fault` constructor: `MemoryIndex` and `RegisterIndex` for the two kinds of `IndexError`, `UnsupportedAluOp` for the ALU's `Exception`, and `MalformedLiteral` for the `ValueError` from parsing.
