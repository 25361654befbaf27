/**
 * The LS-8 instruction set as the emulator in ls8/cpu.py executes it, stated
 * on machine values. The class in cpu.dfy is proved to follow these
 * functions; the lemmas here are what that execution promises.
 *
 * Values are unbounded integers: the emulator stores Python ints in its
 * registers and memory cells and never masks them to 8 bits.
 */
module Isa {

  // Opcodes of the dispatch table (ls8/cpu.py:5-13)
  const HLT: int := 0x01
  const LDI: int := 0x82
  const PRN: int := 0x47
  const MUL: int := 0xA2
  const PUSH: int := 0x45
  const POP: int := 0x46
  const CALL: int := 0x50
  const RET: int := 0x11
  const ADD: int := 0xA0

  /** Register R7 is the stack pointer. */
  const SP: int := 7
  const RamSize: int := 256
  const RegCount: int := 8
  /** Initial stack pointer: the stack grows down from just below 0xF4. */
  const StackTop: int := 0xF4
  /** Status the process exits with on HLT and on an unknown opcode. */
  const ExitCode: int := 1

  /** The whole machine: memory, registers, program counter and what PRN printed. */
  datatype Machine = Machine(ram: seq<int>, reg: seq<int>, pc: int, out: seq<int>)

  /**
   * How execution stands after an instruction or a run: still going,
   * halted by HLT, stopped on an opcode not in the table, or stopped because
   * the next instruction would index memory or registers out of range.
   */
  datatype Status = Running | Halted(exitCode: int) | Fault(opcode: int, pc: int) | Trap(pc: int)

  predicate IsOpcode(op: int) {
    op == HLT || op == LDI || op == PRN || op == ADD || op == MUL ||
    op == PUSH || op == POP || op == CALL || op == RET
  }

  predicate IsReg(r: int) {
    0 <= r < RegCount
  }

  predicate Shaped(m: Machine) {
    |m.ram| == RamSize && |m.reg| == RegCount
  }

  /** The state the constructor builds (ls8/cpu.py:22-27). */
  function Initial(): (m: Machine)
    ensures Shaped(m) && m.pc == 0 && m.out == []
    ensures forall a :: 0 <= a < RamSize ==> m.ram[a] == 0
    ensures forall r :: IsReg(r) ==> m.reg[r] == if r == SP then StackTop else 0
  {
    Machine(seq(RamSize, _ => 0), seq(RegCount, r => if r == SP then StackTop else 0), 0, [])
  }

  /**
   * The instruction at pc can run without indexing anything out of range:
   * the three fetched cells exist, every register operand it uses is one of
   * R0..R7, and the stack cell it touches exists.
   */
  predicate Defined(m: Machine) {
    && Shaped(m)
    && 0 <= m.pc && m.pc + 2 < RamSize
    && var op, a, b := m.ram[m.pc], m.ram[m.pc + 1], m.ram[m.pc + 2];
    && (op == LDI || op == PRN || op == PUSH || op == POP || op == CALL ==> IsReg(a))
    && (op == ADD || op == MUL ==> IsReg(a) && IsReg(b))
    && (op == PUSH || op == CALL ==> 0 < m.reg[SP] <= RamSize)
    && (op == POP || op == RET ==> 0 <= m.reg[SP] < RamSize)
  }

  /**
   * The ALU (ls8/cpu.py:46-56): the new value of the first register for the
   * named operation, or None for a name it does not support (ls8/cpu.py
   * raises an exception there).
   */
  function Alu(op: string, x: int, y: int): (r: Option<int>)
    ensures r.Some? <==> op in {"ADD", "SUB", "MUL"}
  {
    if op == "ADD" then Some(x + y)
    else if op == "SUB" then Some(x - y)
    else if op == "MUL" then Some(x * y)
    else None
  }

  datatype Option<T> = None | Some(value: T)

  /**
   * One pass of the fetch-decode-execute loop (ls8/cpu.py:83-128). HLT and
   * an unknown opcode leave the machine as it was and end the run; every
   * other opcode moves to Running with its effect applied.
   */
  function Exec(m: Machine): (r: (Status, Machine))
    requires Defined(m)
    ensures Shaped(r.1)
    ensures r.0.Halted? <==> m.ram[m.pc] == HLT
    ensures r.0.Fault? <==> !IsOpcode(m.ram[m.pc])
    ensures !r.0.Trap?
    ensures r.0 == Halted(ExitCode) || r.0 == Running || r.0 == Fault(m.ram[m.pc], m.pc)
    ensures !r.0.Running? ==> r.1 == m
  {
    var op, a, b := m.ram[m.pc], m.ram[m.pc + 1], m.ram[m.pc + 2];
    var sp := m.reg[SP];
    if op == HLT then
      (Halted(ExitCode), m)
    else if op == LDI then
      (Running, m.(reg := m.reg[a := b], pc := m.pc + 3))
    else if op == PRN then
      (Running, m.(out := m.out + [m.reg[a]], pc := m.pc + 2))
    else if op == ADD then
      (Running, m.(reg := m.reg[a := Alu("ADD", m.reg[a], m.reg[b]).value], pc := m.pc + 3))
    else if op == MUL then
      (Running, m.(reg := m.reg[a := Alu("MUL", m.reg[a], m.reg[b]).value], pc := m.pc + 3))
    else if op == PUSH then
      // SP is decremented first, so PUSH R7 stores the decremented SP
      var reg' := m.reg[SP := sp - 1];
      (Running, m.(reg := reg', ram := m.ram[sp - 1 := reg'[a]], pc := m.pc + 2))
    else if op == POP then
      // the loaded value is written first, so POP R7 ends with ram[SP] + 1
      var reg' := m.reg[a := m.ram[sp]];
      (Running, m.(reg := reg'[SP := reg'[SP] + 1], pc := m.pc + 2))
    else if op == CALL then
      var reg' := m.reg[SP := sp - 1];
      (Running, m.(reg := reg', ram := m.ram[sp - 1 := m.pc + 2], pc := reg'[a]))
    else if op == RET then
      (Running, m.(reg := m.reg[SP := sp + 1], pc := m.ram[sp]))
    else
      (Fault(op, m.pc), m)
  }

  /**
   * The run loop (ls8/cpu.py:78-128) with a bound on the number of
   * instructions: it stops at the first instruction that halts, faults or
   * cannot run, or with Running when the fuel is spent.
   */
  function RunSpec(m: Machine, fuel: nat): (r: (Status, Machine))
    ensures Shaped(m) ==> Shaped(r.1)
    ensures r.0.Trap? ==> !Defined(r.1) && r.0.pc == r.1.pc
    ensures r.0.Halted? ==> Defined(r.1) && r.1.ram[r.1.pc] == HLT && r.0 == Halted(ExitCode)
    ensures r.0.Fault? ==> Defined(r.1) && !IsOpcode(r.1.ram[r.1.pc]) && r.0 == Fault(r.1.ram[r.1.pc], r.1.pc)
    ensures m.out <= r.1.out
    decreases fuel
  {
    if fuel == 0 then (Running, m)
    else if !Defined(m) then (Trap(m.pc), m)
    else
      var (st, m') := Exec(m);
      if st.Running? then RunSpec(m', fuel - 1) else (st, m')
  }
}
