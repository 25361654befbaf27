/**
 * The emulator object of ls8/cpu.py: memory and registers are arrays the
 * methods update in place, pc and the printed output are fields. Every
 * method is proved against the functions of module Isa and Loader.
 */
module Ls8 {
  import opened Isa
  import Loader

  class Cpu {
    var ram: array<int>
    var reg: array<int>
    var pc: int
    /** Values PRN has printed, oldest first. */
    var output: seq<int>

    /** 256 memory cells and 8 registers, held in two different arrays. */
    ghost predicate Valid()
      reads this
    {
      ram.Length == RamSize && reg.Length == RegCount && ram != reg
    }

    /** The machine the object currently represents. */
    function State(): (m: Machine)
      reads this, ram, reg
      requires Valid()
      ensures Shaped(m)
    {
      Machine(ram[..], reg[..], pc, output)
    }

    /** ls8/cpu.py:22-27: zeroed memory and registers, SP at 0xF4, pc at 0. */
    constructor ()
      ensures Valid() && fresh(ram) && fresh(reg)
      ensures State() == Initial()
    {
      pc := 0;
      output := [];
      ram := new int[RamSize](_ => 0);
      reg := new int[RegCount](_ => 0);
      new;
      reg[SP] := StackTop;
      assert reg[..] == Initial().reg;
      assert ram[..] == Initial().ram;
    }

    /** ls8/cpu.py:132-133: the value stored at address mar. */
    function RamRead(mar: int): (mdr: int)
      reads this, ram
      requires Valid() && 0 <= mar < RamSize
      ensures mdr == State().ram[mar]
    {
      ram[mar]
    }

    /**
     * ls8/cpu.py:135-136: stores mdr at address mar (value first, address
     * second); nothing else changes.
     */
    method RamWrite(mdr: int, mar: int)
      requires Valid() && 0 <= mar < RamSize
      modifies ram
      ensures Valid() && RamRead(mar) == mdr
      ensures State() == old(State()).(ram := old(State()).ram[mar := mdr])
    {
      ram[mar] := mdr;
    }

    /**
     * ls8/cpu.py:46-56: replaces register regA by the result of op on
     * registers regA and regB. ok is false, and nothing changes, for an
     * operation name the ALU does not support (ls8/cpu.py raises there).
     */
    method Alu(op: string, regA: int, regB: int) returns (ok: bool)
      requires Valid() && IsReg(regA) && IsReg(regB)
      modifies reg
      ensures Valid()
      ensures ok <==> Isa.Alu(op, old(reg[regA]), old(reg[regB])).Some?
      ensures ok ==> State() == old(State()).(reg := old(State()).reg[regA := Isa.Alu(op, old(reg[regA]), old(reg[regB])).value])
      ensures !ok ==> State() == old(State())
    {
      if op == "ADD" {
        reg[regA] := reg[regA] + reg[regB];
      } else if op == "SUB" {
        reg[regA] := reg[regA] - reg[regB];
      } else if op == "MUL" {
        reg[regA] := reg[regA] * reg[regB];
      } else {
        return false;
      }
      return true;
    }

    /**
     * One pass of the run loop (ls8/cpu.py:83-128): fetch the opcode and
     * both following cells, then dispatch. The new state and the status are
     * those of Isa.Exec.
     */
    method Step() returns (st: Status)
      requires Valid() && Defined(State())
      modifies this`pc, this`output, ram, reg
      ensures Valid()
      ensures (st, State()) == Exec(old(State()))
    {
      var ir := ram[pc];
      var operandA := RamRead(pc + 1);
      var operandB := RamRead(pc + 2);
      st := Running;
      if ir == HLT {
        st := Halted(ExitCode);
      } else if ir == LDI {
        reg[operandA] := operandB;
        pc := pc + 3;
      } else if ir == PRN {
        output := output + [reg[operandA]];
        pc := pc + 2;
      } else if ir == ADD {
        var _ := Alu("ADD", operandA, operandB);
        pc := pc + 3;
      } else if ir == MUL {
        var _ := Alu("MUL", operandA, operandB);
        pc := pc + 3;
      } else if ir == PUSH {
        reg[SP] := reg[SP] - 1;
        RamWrite(reg[operandA], reg[SP]);
        pc := pc + 2;
      } else if ir == POP {
        reg[operandA] := ram[reg[SP]];
        reg[SP] := reg[SP] + 1;
        pc := pc + 2;
      } else if ir == CALL {
        reg[SP] := reg[SP] - 1;
        ram[reg[SP]] := pc + 2;
        pc := reg[operandA];
      } else if ir == RET {
        pc := RamRead(reg[SP]);
        reg[SP] := reg[SP] + 1;
      } else {
        st := Fault(ir, pc);
      }
    }

    /**
     * ls8/cpu.py:78-128: runs instructions until one halts or faults, at
     * most fuel of them; stops with Trap before an instruction that would
     * index out of range.
     */
    method Run(fuel: nat) returns (st: Status)
      requires Valid()
      modifies this`pc, this`output, ram, reg
      ensures Valid()
      ensures (st, State()) == RunSpec(old(State()), fuel)
    {
      st := Running;
      var n := fuel;
      while n > 0 && st.Running?
        invariant Valid()
        invariant st.Running? ==> RunSpec(old(State()), fuel) == RunSpec(State(), n)
        invariant !st.Running? ==> RunSpec(old(State()), fuel) == (st, State())
        decreases n
      {
        if Defined(State()) {
          st := Step();
        } else {
          st := Trap(pc);
        }
        n := n - 1;
      }
    }

    /**
     * ls8/cpu.py:32-42 without the file: stores the image of the lines at
     * addresses 0 upward and leaves the cells above it as they were.
     */
    method Load(lines: seq<string>)
      requires Valid()
      requires Loader.AllWellFormed(lines)
      requires |Loader.Program(lines)| <= RamSize
      modifies ram
      ensures Valid()
      ensures ram[..] == Loader.Program(lines) + old(ram[..])[|Loader.Program(lines)|..]
    {
      var address := 0;
      ghost var image := Loader.Program(lines);
      ghost var rest := ram[..];
      for i := 0 to |lines|
        invariant Loader.Program(lines[..i]) <= image
        invariant address == |Loader.Program(lines[..i])|
        invariant ram[..] == Loader.Program(lines[..i]) + rest[address..]
      {
        Loader.ProgramStep(lines, i);
        var num := Loader.Code(lines[i]);
        if num == [] {
          assert Loader.Program(lines[..i + 1]) == Loader.Program(lines[..i]);
          continue;
        }
        var val := Loader.ParseBinary(num);
        StoreAfter(Loader.Program(lines[..i]), rest, val);
        ram[address] := val;
        address := address + 1;
      }
      assert lines[..|lines|] == lines;
    }
  }

  /** Storing just past a loaded prefix extends the prefix by the stored value. */
  lemma StoreAfter(done: seq<int>, rest: seq<int>, v: int)
    requires |done| < |rest|
    ensures (done + rest[|done|..])[|done| := v] == (done + [v]) + rest[|done| + 1..]
  {
  }
}
