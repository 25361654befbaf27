/**
 * What one instruction of ls8/cpu.py does to the machine, and what runs of
 * several instructions promise: PUSH then POP moves a value through the
 * stack and restores the stack pointer, CALL then a stack-balanced body then
 * RET resumes after the CALL, and HLT or an unknown opcode ends the run.
 */
module Laws {
  import opened Isa

  /** LDI (ls8/cpu.py:91-93): register a gets operand b; nothing else but pc changes. */
  lemma LdiEffect(m: Machine)
    requires Defined(m) && m.ram[m.pc] == LDI
    ensures var (st, m') := Exec(m);
      var a := m.ram[m.pc + 1];
      && st == Running && m'.pc == m.pc + 3
      && m'.reg[a] == m.ram[m.pc + 2]
      && (forall q :: IsReg(q) && q != a ==> m'.reg[q] == m.reg[q])
      && m'.ram == m.ram && m'.out == m.out
  {
  }

  /** PRN (ls8/cpu.py:95-97): register a is printed; registers and memory stay. */
  lemma PrnEffect(m: Machine)
    requires Defined(m) && m.ram[m.pc] == PRN
    ensures var (st, m') := Exec(m);
      && st == Running && m'.pc == m.pc + 2
      && m'.out == m.out + [m.reg[m.ram[m.pc + 1]]]
      && m'.reg == m.reg && m'.ram == m.ram
  {
  }

  /**
   * ADD and MUL (ls8/cpu.py:99-105): register a gets the unreduced sum or
   * product of registers a and b; no other register and no cell changes.
   */
  lemma ArithEffect(m: Machine)
    requires Defined(m) && (m.ram[m.pc] == ADD || m.ram[m.pc] == MUL)
    ensures var (st, m') := Exec(m);
      var a, b := m.ram[m.pc + 1], m.ram[m.pc + 2];
      && st == Running && m'.pc == m.pc + 3
      && m'.reg[a] == (if m.ram[m.pc] == ADD then m.reg[a] + m.reg[b] else m.reg[a] * m.reg[b])
      && (forall q :: IsReg(q) && q != a ==> m'.reg[q] == m.reg[q])
      && m'.ram == m.ram && m'.out == m.out
  {
  }

  /**
   * The ALU's operations on unbounded integers (ls8/cpu.py:46-56): SUB
   * undoes ADD, and ADD and MUL do not depend on the operand order.
   */
  lemma AluLaws(x: int, y: int)
    ensures Alu("SUB", Alu("ADD", x, y).value, y) == Some(x)
    ensures Alu("ADD", x, y) == Alu("ADD", y, x) && Alu("MUL", x, y) == Alu("MUL", y, x)
  {
  }

  /**
   * PUSH (ls8/cpu.py:107-110): the stack pointer drops by one and the cell
   * it then names receives register a, read after the decrement, so PUSH R7
   * stores the decremented stack pointer.
   */
  lemma PushEffect(m: Machine)
    requires Defined(m) && m.ram[m.pc] == PUSH
    ensures var (st, m') := Exec(m);
      var a, sp := m.ram[m.pc + 1], m.reg[SP];
      && st == Running && m'.pc == m.pc + 2
      && m'.reg[SP] == sp - 1
      && m'.ram[sp - 1] == (if a == SP then sp - 1 else m.reg[a])
      && (forall c :: 0 <= c < RamSize && c != sp - 1 ==> m'.ram[c] == m.ram[c])
      && (forall q :: IsReg(q) && q != SP ==> m'.reg[q] == m.reg[q])
      && m'.out == m.out
  {
  }

  /**
   * POP (ls8/cpu.py:112-115): register a gets the cell the stack pointer
   * names, then the stack pointer rises by one; for POP R7 the increment
   * applies to the loaded value.
   */
  lemma PopEffect(m: Machine)
    requires Defined(m) && m.ram[m.pc] == POP
    ensures var (st, m') := Exec(m);
      var a, sp := m.ram[m.pc + 1], m.reg[SP];
      && st == Running && m'.pc == m.pc + 2
      && (a != SP ==> m'.reg[a] == m.ram[sp] && m'.reg[SP] == sp + 1)
      && (a == SP ==> m'.reg[SP] == m.ram[sp] + 1)
      && (forall q :: IsReg(q) && q != a && q != SP ==> m'.reg[q] == m.reg[q])
      && m'.ram == m.ram && m'.out == m.out
  {
  }

  /**
   * CALL (ls8/cpu.py:117-120): the return address pc + 2 goes on the stack
   * and pc jumps to register a, read after the decrement, with no further
   * advance.
   */
  lemma CallEffect(m: Machine)
    requires Defined(m) && m.ram[m.pc] == CALL
    ensures var (st, m') := Exec(m);
      var a, sp := m.ram[m.pc + 1], m.reg[SP];
      && st == Running
      && m'.reg[SP] == sp - 1 && m'.ram[sp - 1] == m.pc + 2
      && m'.pc == (if a == SP then sp - 1 else m.reg[a])
      && (forall c :: 0 <= c < RamSize && c != sp - 1 ==> m'.ram[c] == m.ram[c])
      && (forall q :: IsReg(q) && q != SP ==> m'.reg[q] == m.reg[q])
      && m'.out == m.out
  {
  }

  /** RET (ls8/cpu.py:122-124): pc is taken from the stack, which shrinks by one. */
  lemma RetEffect(m: Machine)
    requires Defined(m) && m.ram[m.pc] == RET
    ensures var (st, m') := Exec(m);
      && st == Running
      && m'.pc == m.ram[m.reg[SP]] && m'.reg[SP] == m.reg[SP] + 1
      && (forall q :: IsReg(q) && q != SP ==> m'.reg[q] == m.reg[q])
      && m'.ram == m.ram && m'.out == m.out
  {
  }

  /**
   * HLT and an unknown opcode (ls8/cpu.py:87-89, 126-128) end the run with
   * exit status 1: whatever fuel is left, no further instruction executes
   * and the machine is left as it was.
   */
  lemma StopIsFinal(m: Machine, fuel: nat)
    requires Defined(m) && 0 < fuel
    requires m.ram[m.pc] == HLT || !IsOpcode(m.ram[m.pc])
    ensures RunSpec(m, fuel).1 == m
    ensures RunSpec(m, fuel).0 == if m.ram[m.pc] == HLT then Halted(ExitCode) else Fault(m.ram[m.pc], m.pc)
  {
  }

  /**
   * Defined is exactly the condition under which ls8/cpu.py:83-124 indexes
   * nothing out of range: a one-instruction run traps if and only if the
   * state is not Defined, and otherwise runs that instruction.
   */
  lemma TrapExactly(m: Machine)
    ensures RunSpec(m, 1).0.Trap? <==> !Defined(m)
    ensures Defined(m) ==> RunSpec(m, 1) == Exec(m)
  {
  }

  /** An instruction that keeps running hands the rest of the fuel to the next state. */
  lemma RunStep(m: Machine, fuel: nat)
    requires Defined(m) && Exec(m).0.Running? && 0 < fuel
    ensures RunSpec(m, fuel) == RunSpec(Exec(m).1, fuel - 1)
  {
  }

  /** Running a + b instructions is running a of them and then b more. */
  lemma {:induction false} RunSplit(m: Machine, a: nat, b: nat)
    ensures RunSpec(m, a + b) ==
      var r := RunSpec(m, a);
      if r.0.Running? then RunSpec(r.1, b) else r
    decreases a
  {
    if a > 0 && Defined(m) {
      var (st, m') := Exec(m);
      if st.Running? {
        RunSplit(m', a - 1, b);
        assert a + b - 1 == (a - 1) + b;
      }
    }
  }

  /**
   * Every instruction that executes in the first fuel steps from m starts
   * with the stack pointer at most top.
   */
  predicate StaysAtOrBelow(m: Machine, fuel: nat, top: int)
    decreases fuel
  {
    fuel == 0 || !Defined(m) ||
    (m.reg[SP] <= top && (Exec(m).0.Running? ==> StaysAtOrBelow(Exec(m).1, fuel - 1, top)))
  }

  /** One instruction writes memory only below the stack pointer it starts with. */
  lemma ExecKeepsStack(m: Machine)
    requires Defined(m)
    ensures forall c :: m.reg[SP] <= c < RamSize && 0 <= c ==> Exec(m).1.ram[c] == m.ram[c]
  {
  }

  /**
   * A run whose stack pointer never rises above top leaves the cells from
   * top upward as they were: they hold the callers' frames.
   */
  lemma {:induction false} StackAboveKept(m: Machine, fuel: nat, top: int)
    requires Shaped(m) && StaysAtOrBelow(m, fuel, top)
    ensures forall c :: top <= c < RamSize && 0 <= c ==> RunSpec(m, fuel).1.ram[c] == m.ram[c]
    decreases fuel
  {
    if fuel > 0 && Defined(m) {
      ExecKeepsStack(m);
      var (st, m') := Exec(m);
      if st.Running? {
        StackAboveKept(m', fuel - 1, top);
      }
    }
  }

  /**
   * PUSH r then POP s (ls8/cpu.py:107-115) copies register r into register
   * s through the stack and leaves the stack pointer where it was. The stack
   * cell must not be one of the POP instruction's own two cells, and s must
   * not be R7 (POP R7 leaves the popped value plus one in R7).
   */
  lemma PushPop(m: Machine)
    requires Defined(m) && m.ram[m.pc] == PUSH && m.pc + 4 < RamSize
    requires m.ram[m.pc + 2] == POP && IsReg(m.ram[m.pc + 3]) && m.ram[m.pc + 3] != SP
    requires m.reg[SP] - 1 != m.pc + 2 && m.reg[SP] - 1 != m.pc + 3
    ensures var (st, m') := RunSpec(m, 2);
      var r, s, sp := m.ram[m.pc + 1], m.ram[m.pc + 3], m.reg[SP];
      && st == Running && m'.pc == m.pc + 4
      && m'.reg[SP] == sp
      && m'.reg[s] == (if r == SP then sp - 1 else m.reg[r])
      && (forall q :: IsReg(q) && q != s ==> m'.reg[q] == m.reg[q])
      && m'.ram == m.ram[sp - 1 := m'.reg[s]]
      && m'.out == m.out
  {
    var m1 := Exec(m).1;
    PushEffect(m);
    assert m1.ram[m1.pc] == POP && m1.ram[m1.pc + 1] == m.ram[m.pc + 3];
    PopEffect(m1);
    RunStep(m, 2);
    RunStep(m1, 1);
  }

  /**
   * CALL at p (ls8/cpu.py:117-124), then a body of n instructions that never
   * lets the stack pointer rise above where CALL left it and returns it
   * there, then RET: execution resumes at p + 2 with the stack pointer
   * restored.
   */
  lemma CallReturn(m: Machine, n: nat)
    requires Defined(m) && m.ram[m.pc] == CALL
    requires var m1 := Exec(m).1;
      && StaysAtOrBelow(m1, n, m1.reg[SP])
      && RunSpec(m1, n).0 == Running
      && var m2 := RunSpec(m1, n).1;
      && m2.reg[SP] == m1.reg[SP]
      && 0 <= m2.pc && m2.pc + 2 < RamSize && m2.ram[m2.pc] == RET
    ensures RunSpec(m, n + 2).0 == Running
    ensures RunSpec(m, n + 2).1.pc == m.pc + 2
    ensures RunSpec(m, n + 2).1.reg[SP] == m.reg[SP]
  {
    var m1 := Exec(m).1;
    var top := m1.reg[SP];
    var m2 := RunSpec(m1, n).1;
    StackAboveKept(m1, n, top);
    RunSplit(m1, n, 1);
    assert RunSpec(m1, n + 1) == RunSpec(m2, 1);
    RetTo(m2);
    RunSplit(m, 1, n + 1);
  }

  /** One RET, run as a one-instruction program. */
  lemma RetTo(m: Machine)
    requires Defined(m) && m.ram[m.pc] == RET
    ensures RunSpec(m, 1).0 == Running
    ensures RunSpec(m, 1).1.pc == m.ram[m.reg[SP]] && RunSpec(m, 1).1.reg[SP] == m.reg[SP] + 1
  {
  }
}
