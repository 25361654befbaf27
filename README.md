# LS-8 emulator core in Dafny

This project models the `CPU` class of `ls8/cpu.py`. The class emulates a small
8-bit machine, the LS-8. It has 256 memory cells, eight registers, and a program
counter. Register R7 is the stack pointer: it starts at 0xF4 and the stack grows
down from there. The run loop fetches an opcode and the two cells after it. It
then dispatches one of nine opcodes: HLT, LDI, PRN, ADD, MUL, PUSH, POP, CALL and
RET. The loader turns a program file into the initial memory image.

The files:

- `isa.dfy` (module `Isa`) states the instruction set on values.
  - `Machine` holds memory, registers, pc and printed output.
  - `Exec` is one pass of the run loop.
  - `RunSpec` is the loop with a bound on the number of instructions.
  - `Defined` says when the next instruction can run without indexing memory or a register out of range.
- `cpu.dfy` (module `Ls8`) is the class itself.
  - Memory and registers are `array<int>` fields, updated in place.
  - `pc` and the printed output are fields.
  - Every method's postcondition gives the object's new state, `State()`, as a function of the old one. `Step` and `Run` follow `Exec` and `RunSpec`, `Alu` follows `Isa.Alu`, `Load` follows `Loader.Program`, and `RamWrite` is a single-cell update.
- `loader.dfy` (module `Loader`) is the loader's line rule as pure functions.
  - A line is cut at its first `#` and stripped of the whitespace Python's `str.strip()` removes.
  - A line with nothing left is skipped without taking an address.
  - Any other line is read as a base-2 numeral and stored at the next address.
  - It also holds the lemmas about where each line lands.
- `laws.dfy` (module `Laws`) holds the per-opcode effects and the multi-instruction laws:
  - PUSH then POP balance;
  - CALL, a stack-balanced body, then RET returns after the CALL;
  - HLT and unknown opcodes are final.
- `example.dfy` (module `Example`) is one complete program file, from its text to what it prints.

Values are unbounded integers, as in ls8/cpu.py. `alu` uses `+=`, `-=` and `*=` on Python ints and never masks them (ls8/cpu.py:50-54). The operations that touch the stack do not mask either (ls8/cpu.py:108-124). The LS-8 architecture is usually described with 8-bit registers, where sums and products wrap mod 256 and stored values are masked to 8 bits. This emulator's code does neither. The model follows the code: nothing is reduced mod 256, and `Laws.ArithEffect` states the unreduced sum and product.

ls8/cpu.py has no bounds checks:

- Memory or register access out of range raises `IndexError`.
- A negative index silently reads from the end of the list.
- Both come from operands, `pc` or the stack pointer leaving their range.

`Isa.Defined` names the instructions that avoid all of this. `Cpu.Step` requires it. `Cpu.Run` and `RunSpec` stop with `Trap(pc)` before any instruction that is not `Defined`.

HLT and an unknown opcode both end the run with exit status 1 (ls8/cpu.py:89, 128). The model returns `Halted(1)` and `Fault(opcode, pc)` and leaves the machine as it was.

## Model

| member | source | states |
|---|---|---|
| Isa.Initial | ls8/cpu.py:22-27 | every memory cell is 0; every register is 0 except R7, which is 0xF4; pc is 0; nothing is printed |
| Isa.Alu | ls8/cpu.py:46-56 | the ALU gives a result exactly for ADD, SUB and MUL and fails for any other operation name |
| Isa.Exec | ls8/cpu.py:83-128 | one instruction keeps memory at 256 cells and 8 registers; it halts exactly on HLT, with status 1; it faults exactly on an opcode outside the table, reporting that opcode and pc; it never traps; a halt or fault leaves the machine unchanged |
| Isa.Defined | ls8/cpu.py:83-124 | the instruction at pc fetches three cells that exist, names registers R0..R7 as operands, and touches a stack cell that exists; Laws.TrapExactly gives its meaning |
| Isa.RunSpec | ls8/cpu.py:78-128 | the run loop keeps memory and register lengths; it traps only in front of an instruction that cannot run, and reports its pc; it halts only at an HLT, with status 1, and faults only at an opcode outside the table, reporting that opcode and the final pc; printed output only grows |
| Ls8.Cpu.constructor | ls8/cpu.py:22-27 | a new CPU is in the initial state, with two fresh arrays |
| Ls8.Cpu.RamRead | ls8/cpu.py:132-133 | reads the cell at the given address |
| Ls8.Cpu.RamWrite | ls8/cpu.py:135-136 | with the value first and the address second, the cell then reads back the value; no other cell, register, pc or output changes |
| Ls8.Cpu.Alu | ls8/cpu.py:46-56 | ADD, SUB and MUL replace register a with the sum, difference or product of registers a and b; any other name reports failure and changes nothing |
| Ls8.Cpu.Step | ls8/cpu.py:83-128 | the in-place fetch, decode and execute matches Isa.Exec on the state before: status, memory, registers, pc and output |
| Ls8.Cpu.Run | ls8/cpu.py:78-128 | the loop of steps matches Isa.RunSpec for the same fuel, including the final status |
| Ls8.Cpu.Load | ls8/cpu.py:29-42 | memory starts with the loaded image of the lines; every cell above the image keeps its old value |
| Loader.CodePart | ls8/cpu.py:36 | the code part of a line is the longest prefix without `#`; it is followed by `#` unless it is the whole line |
| Loader.Strip | ls8/cpu.py:37 | stripping never lengthens a string, and the result neither starts nor ends with whitespace; Loader.StripIsTrim and Loader.StripOf give the full characterisation |
| Loader.ParseBinary | ls8/cpu.py:40 | the value of a w-digit binary numeral is below 2^w; Loader.ParseBits and Loader.BitsParse give the round trip |
| Loader.Entry | ls8/cpu.py:36-42 | one pass of the loading loop: a blank or comment-only line contributes no value, any other line exactly one |
| Loader.Program | ls8/cpu.py:32-42 | the whole loading loop: the image has at most one value per line |
| Loader.ProgramCountsNonBlank | ls8/cpu.py:36-42 | the image has exactly one value per non-blank line |
| Loader.ParseBits | ls8/cpu.py:40 | reading the w-digit numeral of any n below 2^w gives back n |
| Loader.BitsParse | ls8/cpu.py:40 | writing the value of a binary digit string back in the same width gives the same digits |
| Loader.ProgramConcat | ls8/cpu.py:35-42 | loading two parts of a file one after the other loads the whole file |
| Loader.ProgramStep | ls8/cpu.py:35-42 | after i + 1 lines the image is the image after i lines followed by what line i contributes, and it is a prefix of the final image |
| Loader.BlankTakesNoAddress | ls8/cpu.py:36-39 | a blank or comment-only line anywhere in a file changes nothing in the image |
| Loader.LineAddress | ls8/cpu.py:36-42 | a line with code lands at the address equal to the number of values the lines before it loaded, which is the number of non-blank lines before it, and holds the value of its digits |
| Loader.ProgramOfValues | ls8/cpu.py:35-42 | a file whose every line loads one value loads exactly those values, in order |
| Loader.CommentStartIsFirst | ls8/cpu.py:36 | the cut point is the first `#`: no `#` comes before it |
| Loader.CodePartOf | ls8/cpu.py:36 | a comment-free text, then `#`, then anything has that text as its code part |
| Loader.TextStartIsFirst | ls8/cpu.py:37 | everything before the text start is whitespace, and the character there is not |
| Loader.TextEndIsLast | ls8/cpu.py:37 | everything from the text end on is whitespace, and the character before it is not |
| Loader.StripIsTrim | ls8/cpu.py:37 | stripping keeps a slice that neither starts nor ends with whitespace; everything around that slice is whitespace; the result is empty exactly for an all-whitespace string |
| Loader.StripOf | ls8/cpu.py:37 | whitespace, then text that neither starts nor ends with whitespace, then whitespace: stripping gives back that text |
| Loader.NumeralCode | ls8/cpu.py:36-37 | the code of a line of binary digits, then whitespace and a comment, is its digits |
| Loader.NumeralLine | ls8/cpu.py:36-42 | a line holding the numeral of n, then whitespace and a comment, loads exactly n |
| Loader.CommentLine | ls8/cpu.py:36-39 | a line of whitespace and a comment loads nothing |
| Laws.AluLaws | ls8/cpu.py:46-56 | SUB undoes ADD; ADD and MUL give the same result with the operands swapped |
| Laws.LdiEffect | ls8/cpu.py:91-93 | LDI sets register a to operand b and advances pc by 3; no other register, no memory cell and no output changes |
| Laws.PrnEffect | ls8/cpu.py:95-97 | PRN appends register a to the output and advances pc by 2; registers and memory stay |
| Laws.ArithEffect | ls8/cpu.py:99-105 | ADD and MUL set register a to the unreduced sum or product of registers a and b and advance pc by 3; nothing else changes |
| Laws.PushEffect | ls8/cpu.py:107-110 | PUSH lowers R7 by 1 and stores register a at the new R7; for PUSH R7 the stored value is the lowered R7; pc advances by 2; no other cell or register changes |
| Laws.PopEffect | ls8/cpu.py:112-115 | POP loads register a from the cell at R7 and then raises R7 by 1; for POP R7 the result is that cell plus 1; memory stays |
| Laws.CallEffect | ls8/cpu.py:117-120 | CALL lowers R7, stores pc + 2 there and jumps to register a, read after the decrement, with no further advance |
| Laws.RetEffect | ls8/cpu.py:122-124 | RET takes pc from the cell at R7 and raises R7 by 1; memory and the other registers stay |
| Laws.TrapExactly | ls8/cpu.py:83-124 | a one-instruction run traps exactly when the state is not Defined, and otherwise is one Exec |
| Laws.StopIsFinal | ls8/cpu.py:87-128 | HLT or an unknown opcode ends any run at once with status 1 or a fault report; the machine is left as it was |
| Laws.RunSplit | ls8/cpu.py:78-81 | running a + b instructions is running a, then b more from where the run stopped, unless it already ended |
| Laws.ExecKeepsStack | ls8/cpu.py:107-124 | one instruction writes memory only below the stack pointer it starts with |
| Laws.StackAboveKept | ls8/cpu.py:78-128 | a run whose stack pointer never rises above top leaves every cell from top upward unchanged |
| Laws.PushPop | ls8/cpu.py:107-115 | PUSH r then POP s copies register r into s; R7 ends where it started; memory differs only in the stack cell; no other register changes |
| Laws.CallReturn | ls8/cpu.py:117-124 | CALL at p, then a body that keeps R7 at or below where CALL left it and returns it there, then RET: execution resumes at p + 2 with R7 restored |
| Example.SumFileLoads | ls8/cpu.py:29-42 | a file with a comment header and twelve commented binary lines is well formed and loads exactly the twelve bytes |
| Example.SumRuns | ls8/cpu.py:78-128 | the loaded program LDI R0,8; LDI R1,9; ADD R0,R1; PRN R0; HLT prints 17 and halts with status 1 |
| Example.RunSumFile | ls8/cpu.py:22-128 | constructing a CPU, loading that file and running it halts with status 1 after printing exactly 17 |

## Left out

- Opening and reading the program file (ls8/cpu.py:34-35) is I/O. A program is given as the sequence of its lines. How Python splits a file into lines, including newline translation, is not modelled.
- Ls8.Cpu.Load requires every line to be blank, or binary digits once cut and stripped. `int(num, 2)` accepts more: for example a `0b` or `0B` prefix, a sign, underscores between digits, and non-ASCII decimal digits 0 and 1 (such as fullwidth or Arabic-Indic ones). It raises `ValueError` on text it cannot read. None of this is modelled.
- Ls8.Cpu.Load requires the image to fit in 256 cells. ls8/cpu.py raises `IndexError` on the 257th value.
- `Loader.IsSpace` is the set of characters `str.strip()` removes with no argument, written out as a table. It does not consult a Unicode database.
- Ls8.Cpu.Run takes a bound on the number of instructions. ls8/cpu.py loops until HLT, an unknown opcode or an exception. `RunSpec` returns `Running` when the bound is spent.
- `IndexError` and negative-index aliasing in memory or register accesses are not reproduced. The run stops with `Trap(pc)` in front of such an instruction, and `Cpu.Step` requires `Defined`.
- `print` in PRN (ls8/cpu.py:96) becomes an append to the `output` field. The error message for an unknown opcode (ls8/cpu.py:127) is replaced by the `Fault(opcode, pc)` status.
- `sys.exit(1)` (ls8/cpu.py:89, 128) becomes the returned status `Halted(1)` or `Fault`, and the process is not ended.
- Ls8.Cpu.Alu returns `false` for an unsupported operation name, where ls8/cpu.py raises an exception (ls8/cpu.py:56). The state is unchanged in both.
- `trace` (ls8/cpu.py:58-76) only prints a diagnostic line and is not modelled.
- Laws.PushPop is stated for POP into a register other than R7. Its stack cell must not overlap the POP instruction's own two cells. The R7 cases are covered by Laws.PushEffect and Laws.PopEffect.
- Laws.CallReturn takes the body's behaviour as hypotheses: its length n, that R7 stays at or below its value after CALL, and that the body ends at a RET with R7 back at that value.
