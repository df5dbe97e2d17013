# LS-8 CPU emulator, modelled in Dafny

A model of the LS-8 emulator in `ls8/cpu.py`: a CPU with 256 memory cells,
eight registers (register 7 doubling as the stack pointer, seeded to 0xF4 by
`run`), a program counter and a running flag; the loader that turns program
text (one base-2 number per line, `#` comments, blank lines skipped) into a
memory image; and the fetch-and-execute loop over the six opcodes the program
knows: HLT, LDI, PRN, MUL (through `alu`), PUSH and POP.

The model is functional. A CPU is an immutable `Cpu.State`; each handler is a
pure function from a state to either the next state plus what it printed or
the exception it raises; `Cpu.Step` is one iteration of `run`'s loop and
`Cpu.Loop` runs it for a bounded number of iterations, collecting PRN output.
Values are unbounded integers, as in Python: nothing is reduced modulo 256.
Python's list subscripts are modelled exactly, negative indices included
(`ram[-1]` is the last cell), so every step is total: an out-of-range
subscript becomes an IndexError result rather than a precondition.

Files:
- `runtime.dfy` (module `Runtime`): Python list subscripts (`Wrap`, `Slot`) and the exceptions (`Fault`, `Result`).
- `loader.dfy` (module `Loader`): `str.split("#")[0]`, `str.strip()`, `int(_, 2)`, and the load loop.
- `cpu.dfy` (module `Cpu`): the state, the opcode table, `ram_read`/`ram_write`, the ALU, the six handlers, one loop iteration (as written and as a dispatch), the bounded loop, `run` and `load`.
- `facts.dfy` (module `CpuFacts`): properties relating several steps.

The model follows what the program does, including where an LS-8 reader
might expect otherwise: only six opcodes exist (no ADD, CMP, jumps, CALL/RET
or flags), arithmetic does not wrap at 8 bits, POP does not clear the popped
cell, `ram_write` writes the register file rather than memory, and an
unknown opcode makes the loop spin with the state unchanged instead of
reporting an illegal instruction.

## Model

| member | source | states |
|---|---|---|
| Cpu.Init | ls8/cpu.py:8-13 | a fresh CPU has 256 zero cells, 8 zero registers, pc 0 and running true |
| Cpu.Boot | ls8/cpu.py:114 | `run` sets reg[7] to 0xF4 and changes no other register, memory, pc or the running flag |
| CpuFacts.RunStartsAtStackTop | ls8/cpu.py:110-114 | a freshly built and loaded CPU reaches its first fetch with reg[7] = 0xF4, pc 0, running, the other registers zero |
| Cpu.RamRead | ls8/cpu.py:70-71 | `ram_read` succeeds exactly for a valid Python subscript of the 256 cells and returns that cell; otherwise IndexError |
| Cpu.RamWrite | ls8/cpu.py:72-73 | `ram_write` stores into the register file: only the addressed register changes, memory, pc and running stay; a bad index is an IndexError |
| Cpu.AluAsWritten | ls8/cpu.py:74-87 | the ALU as written completes exactly when op is "MUL" and both register indices are valid; every other op raises |
| Cpu.Alu | ls8/cpu.py:74-87 | the ALU as intended: ADD adds and MUL multiplies into reg[a] without wrap-around, no other register changes, any other op raises |
| Cpu.Ldi | ls8/cpu.py:132-138 | LDI succeeds iff its operands are in memory and the register index is valid; then reg[r] = v, memory and the other registers unchanged, pc + 3, nothing printed |
| Cpu.Prn | ls8/cpu.py:139-143 | PRN succeeds iff its operand is in memory and names a register; then it prints reg[ram[pc+1]], changes nothing but pc, which advances by 2 |
| Cpu.Mul | ls8/cpu.py:144-148 | MUL succeeds iff both operands are in memory and valid register indices; then reg[a] = reg[a] * reg[b] unbounded, memory and other registers unchanged, pc + 3 |
| Cpu.Push | ls8/cpu.py:149-160 | PUSH lowers reg[7] by one, then stores reg[r] (read after the lowering) at ram[reg[7]]; no other cell changes, pc + 2; fails iff an operand or subscript is out of range |
| Cpu.Pop | ls8/cpu.py:162-175 | POP copies ram[reg[7]] into reg[r], then adds one to reg[7] (as read after that copy); memory is not modified, pc + 2 |
| Cpu.Step | ls8/cpu.py:122-175 | one iteration: fetching past memory raises; it halts iff the opcode is HLT, with running false and pc + 1; an opcode outside the table leaves the whole state unchanged; at most one value is printed |
| Cpu.StepAsWritten | ls8/cpu.py:122-175 | one iteration as the program writes it, a chain of separate `if` blocks: a fetch past memory raises IndexError, the iteration halts iff the fetched byte is HLT, and a byte outside the opcode table leaves the state unchanged with nothing printed |
| Cpu.StepAsWrittenIsDispatch | ls8/cpu.py:14-21 | the six opcodes are distinct, so the chain of separate `if` blocks equals a dispatch in which at most one handler fires |
| Cpu.Loop | ls8/cpu.py:122 | the loop ends normally only with running false, runs out of fuel only while running, and prints at most one value per iteration |
| Cpu.Run | ls8/cpu.py:110-131 | `run` seeds reg[7] with 0xF4 before it first tests the running flag: a stopped CPU returns at once with only reg[7] changed; a first HLT ends the run with running false and pc one past it; the run ends normally only with running false, runs out of iterations only while running, and prints at most one value per iteration |
| Cpu.Load | ls8/cpu.py:24-46 | loading succeeds exactly when the loader does and changes only memory |
| Loader.BeforeHash | ls8/cpu.py:35 | `split("#")[0]` is the prefix of the line before its first `#` (the whole line when there is none) |
| Loader.Strip | ls8/cpu.py:36 | `strip()` yields the empty text iff the text is all whitespace, and otherwise a text neither starting nor ending with whitespace |
| Loader.StripIsSlice | ls8/cpu.py:36 | what `strip()` keeps is the slice of the text that starts right after its leading whitespace, and only whitespace follows it |
| Loader.StripUnique | ls8/cpu.py:36 | conversely, any slice with non-space ends (or an empty one) that has only whitespace before and after it is exactly what `strip()` returns |
| Loader.StripTrailingSpace | ls8/cpu.py:36 | a text without whitespace at its ends, followed by whitespace, strips to itself |
| Loader.CommandOfLine | ls8/cpu.py:35-39 | an instruction followed by whitespace (none, a newline, spaces), and optionally then by `#` and a comment, is the command its line contributes |
| Loader.ParseBinary | ls8/cpu.py:40 | `int(_, 2)` reads a non-empty string of bits as its binary value and yields no negative number without a leading minus; it rejects the empty string and every string with a character other than a bit, `_`, a sign or `b`/`B`, with a sign after the first position, with a leading underscore or two adjacent ones, or not ending in a bit |
| Loader.ParseBinaryUnderscore | ls8/cpu.py:40 | `int("1_0", 2)` is 2 |
| Loader.ParseBinarySigned | ls8/cpu.py:40 | `int("-101", 2)` is -5 |
| Loader.ParseBinaryPrefixed | ls8/cpu.py:40 | `int("0b_1", 2)` is 1 and `int("0B11", 2)` is 3 |
| Loader.ParseBinaryRejects | ls8/cpu.py:40 | `int(_, 2)` raises ValueError on "2", "1__0", "_1" and "-" |
| Loader.BitsRoundTrip | ls8/cpu.py:40 | reading the w-digit numeral of a number below 2^w gives the number back |
| Loader.ValueRoundTrip | ls8/cpu.py:40 | writing back the value of a string of bits, at its width, gives the string back |
| Loader.ByteValue | ls8/cpu.py:40 | an eight-bit line has value 128·b0 + 64·b1 + … + b7 |
| Loader.ByteLineParses | ls8/cpu.py:40 | an eight-character line of bits parses to a value from 0 to 255 |
| Loader.Classify | ls8/cpu.py:35-40 | a line is skipped iff its text before `#`, stripped, is empty; otherwise it is malformed exactly when that text is not valid base 2, and holds the text's value when it is |
| Loader.Store | ls8/cpu.py:33-45 | the load loop keeps the memory size and never moves the address backwards |
| Loader.ByteLineCommand | ls8/cpu.py:35-39 | a line holding an eight-bit numeral, whitespace, and optionally a `#` comment contributes that numeral |
| Loader.ByteLinesCommands | ls8/cpu.py:33-39 | a text of such lines contributes exactly their numerals, in order |
| Loader.CommandsWhenNoneBlank | ls8/cpu.py:33-39 | when no line is blank or comment-only, every line contributes, in order |
| Loader.ParseAllSpec | ls8/cpu.py:40 | reading the commands fails exactly when one of them is malformed, and otherwise yields each command's value in order |
| Loader.StoreSpec | ls8/cpu.py:33-45 | the loop from an address succeeds iff no line is malformed and the bytes fit in memory; the bytes then sit at consecutive addresses from there, every other cell keeps its value, and the next free address is just past them |
| Loader.ClassifiedBytes | ls8/cpu.py:33-40 | the bytes of the classified lines are exactly the base-2 values of the lines that contribute, and one malformed line makes both fail |
| Loader.Load | ls8/cpu.py:26-45 | a line contributes iff its text before `#`, trimmed, is non-empty; the values land at 0, 1, 2, … in line order, the count is the number of such lines, the rest of memory is unchanged |
| Loader.LoadByteLines | ls8/cpu.py:33-45 | a text of eight-bit lines, each followed by whitespace (its newline) and optionally a `#` comment, loads those bytes at addresses 0, 1, 2, … and leaves the rest of memory unchanged |
| CpuFacts.LoadPlacesEachLine | ls8/cpu.py:33-45 | after a successful load the k-th contributing line's value is at address k and every cell after them keeps its old value |
| CpuFacts.AluAsWrittenRejectsAdd | ls8/cpu.py:80-87 | the ALU as written raises on "ADD" for all operands |
| CpuFacts.AluAddCounterexample | ls8/cpu.py:80-87 | with reg[0] = 2 and reg[1] = 3, "ADD" raises as written but gives 5 as intended |
| CpuFacts.AluAgreesOnMul | ls8/cpu.py:144-148 | on "MUL", the only op `run` passes, the as-written and the intended ALU agree |
| CpuFacts.LdiThenPrn | ls8/cpu.py:132-143 | LDI r, v followed by PRN r prints v and leaves pc five further on |
| CpuFacts.PushThenPop | ls8/cpu.py:149-175 | PUSH r then POP q (neither is register 7, stack cell apart from the POP bytes) puts the old reg[r] in reg[q], restores reg[7], leaves the pushed value in memory and advances pc by 4 |
| CpuFacts.UnknownOpcodeSpins | ls8/cpu.py:122-131 | an opcode outside the table makes the loop spin forever with the state unchanged and nothing printed |
| CpuFacts.HaltStops | ls8/cpu.py:127-131 | HLT ends the run at once with running false and pc one past it |
| CpuFacts.MoreFuelSameOutcome | ls8/cpu.py:122 | a run that has ended within some number of iterations ends the same way with any larger bound |
| CpuFacts.SilentStep | ls8/cpu.py:122 | an iteration that prints nothing hands the rest of the run, unchanged, to the state it leaves |
| CpuFacts.LdiStep | ls8/cpu.py:132-138 | an iteration on LDI r, v with r a register sets reg[r] to v, moves pc by 3 and changes nothing else |
| CpuFacts.PrnStep | ls8/cpu.py:139-143 | an iteration on PRN r with r a register prints reg[r] and changes nothing but pc, which moves by 2 |
| CpuFacts.MulStep | ls8/cpu.py:144-148 | an iteration on MUL a, b with two registers sets reg[a] to reg[a] * reg[b], moves pc by 3 and changes nothing else |
| CpuFacts.LdiLoop | ls8/cpu.py:122-138 | the loop goes past such an LDI silently, to the state with reg[r] = v and pc + 3 |
| CpuFacts.MulLoop | ls8/cpu.py:122-148 | the loop goes past such a MUL silently, to the state with the product in reg[a] and pc + 3 |
| CpuFacts.PrnThenHalt | ls8/cpu.py:122-143 | PRN r directly followed by HLT prints reg[r] and ends the run with running false and pc past the HLT |
| CpuFacts.MultiplyLoads | ls8/cpu.py:132-138 | the multiply program's two LDIs leave 8 in R0, 9 in R1 and pc at 6 |
| CpuFacts.MultiplyPrints | ls8/cpu.py:127-148 | from there MUL, PRN and HLT print 72 and halt with 72 in R0 and pc 12 |
| CpuFacts.MultiplyLoop | ls8/cpu.py:122-148 | the whole program from pc 0 ends with R0 = 72, R1 = 9, the rest of the state as before, and prints exactly 72 |
| CpuFacts.MultiplyProgramRuns | ls8/cpu.py:122-148 | LDI R0,8; LDI R1,9; MUL R0,R1; PRN R0; HLT prints 72 and halts with reg[0] = 72 and pc = 12 |
| CpuFacts.MultiplyProgram | ls8/cpu.py:24-46 | the same program as text, one byte per line followed by whitespace and optionally a comment, loaded into a fresh CPU and run, prints 72 and halts |

## Left out

- The debug output: `trace()` and every `print` other than PRN's (ls8/cpu.py:34, 37, 41, 46, 83, 90-108, 136, 159). `trace()` reads `self.pc`, which stays 0, so it never raises and has no effect on the state.
- Opening the file, `sys.argv`, the `FileNotFoundError` handler and the `sys.exit` calls of `load` (ls8/cpu.py:27-32, 47-53): the loader takes the file's lines as a sequence. Lines 51-53 cannot be reached, as they follow `sys.exit(2)`.
- `ls8/ls8.py`, the command-line entry point. It passes a file name to `load`, which takes none.
- The state left behind by an exception: every exception ends the program, so a raise is modelled by the exception alone, together with the output printed before it.
- `self.pc` as distinct from `run`'s local `pc`: the model has one counter.
- Unbounded looping: `Cpu.Loop` and `Cpu.Run` take a bound on the number of iterations, and a run that reaches it ends as `OutOfFuel`. A real run on an unknown opcode never terminates.
- Loader.ParseBinary: non-ASCII decimal digits, which Python's `int` also accepts, are rejected. Signs, the `0b` prefix and single underscores are modelled.
- Loader.LoadByteLines: every line must hold a byte; a text with blank or comment-only lines between the byte lines is covered by Loader.Load and Loader.StoreSpec, not by this lemma. The same holds for CpuFacts.MultiplyProgram.
- Loader.IsSpace: covers Python's whitespace characters as listed; no other Unicode properties are modelled.
- ADD, CMP, JMP, JEQ, JNE, CALL, RET and a flags register are not implemented by the program and are not modelled.

## Findings

| source | as written | input that shows it | evidently intended | confidence | as-written member | corrected member |
|---|---|---|---|---|---|---|
| ls8/cpu.py:80-87 | `if op == "ADD"` is followed by a separate `if op == "MUL": ... else: raise`, so "ADD" adds and then raises | `alu("ADD", 0, 1)` with reg = [2, 3, 0, …] raises "Unsupported ALU operation" | an if/elif/else chain: "ADD" adds, "MUL" multiplies, other ops raise | high; not executed | CpuFacts.AluAddCounterexample | Cpu.Alu |

`Cpu.Mul` uses the corrected `Cpu.Alu`. `CpuFacts.AluAgreesOnMul` shows the
two ALUs agree on "MUL", and `run` passes no other op. So the machine behaves
exactly as the program does.
