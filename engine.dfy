/** The toy VM as the object the program builds: a byte array for memory,
    an array of three registers (register 0 is the program counter) and an
    arithmetic ceiling. Every method is proved against the function of the
    same name in MachineSpec. */
module Engine {
  import opened WordCodec
  import opened MachineSpec

  class ToyVM {
    var memory: array<Byte>
    const regs: array<nat>
    const wordMax: int

    ghost predicate Valid()
      reads this
    {
      memory.Length == MEMORY_SIZE && regs.Length == NUM_REGS
    }

    /** The memory image and register file as a value. */
    ghost function Snapshot(): (s: State)
      reads this, memory, regs
      requires Valid()
      ensures MachineSpec.Valid(s)
    {
      State(memory[..], regs[..])
    }

    /** A VM built without a program: the default image (HALT followed by
        zeros) and all registers zero. */
    constructor (wordMax: int)
      ensures Valid() && fresh(memory) && fresh(regs)
      ensures Snapshot() == Initial([]).value && this.wordMax == wordMax
    {
      memory := new Byte[MEMORY_SIZE](i => if i == 0 then OP_HALT else 0);
      regs := new nat[NUM_REGS](_ => 0);
      this.wordMax := wordMax;
      new;
      assert memory[..] == DEFAULT_IMAGE;
      assert regs[..] == ZERO_REGS;
    }

    /** Builds a VM: an empty program selects the default image, any other
        program is loaded and fails when its length is wrong. */
    static method New(program: seq<Byte>, wordMax: int) returns (r: Result<ToyVM>)
      ensures Initial(program).Failure? ==> r == Failure(Initial(program).error)
      ensures Initial(program).Success? ==>
        && r.Success? && fresh(r.value) && fresh(r.value.memory) && fresh(r.value.regs)
        && r.value.Valid() && r.value.Snapshot() == Initial(program).value
        && r.value.wordMax == wordMax
    {
      var vm := new ToyVM(wordMax);
      if |program| != 0 {
        var outcome := vm.LoadProgram(program);
        if outcome.Fail? {
          return Failure(outcome.fault);
        }
      }
      r := Success(vm);
    }

    /** Replaces the memory by a fresh copy of `program` when it has the
        right length; otherwise reports the length and changes nothing. */
    method LoadProgram(program: seq<Byte>) returns (outcome: Outcome)
      requires Valid()
      modifies this
      ensures Valid()
      ensures Applied(old(Snapshot()), MachineSpec.LoadProgram(old(Snapshot()), program), outcome, Snapshot())
      ensures outcome.Pass? ==> fresh(memory)
      ensures outcome.Fail? ==> memory == old(memory)
    {
      if |program| != MEMORY_SIZE {
        return Fail(InvalidProgramLength(|program|));
      }
      memory := new Byte[MEMORY_SIZE](i requires 0 <= i < MEMORY_SIZE => program[i]);
      outcome := Pass;
    }

    /** Loads the word at `addr`, `addr + 1` into register `reg`. */
    method LoadWord(reg: nat, addr: nat) returns (outcome: Outcome)
      requires Valid()
      modifies regs
      ensures Valid()
      ensures Applied(old(Snapshot()), MachineSpec.LoadWord(old(Snapshot()), reg, addr), outcome, Snapshot())
    {
      if addr + 1 >= memory.Length || reg >= regs.Length {
        return Fail(OutOfRange);
      }
      regs[reg] := DecodeWord(memory[addr..addr + 2]);
      outcome := Pass;
    }

    /** Stores register `reg` as a little-endian word at `addr`, `addr + 1`. */
    method StoreWord(reg: nat, addr: nat) returns (outcome: Outcome)
      requires Valid()
      modifies memory
      ensures Valid()
      ensures Applied(old(Snapshot()), MachineSpec.StoreWord(old(Snapshot()), reg, addr), outcome, Snapshot())
    {
      if reg >= regs.Length {
        return Fail(OutOfRange);
      }
      var value := regs[reg];
      if value >= WORD_LIMIT {
        return Fail(UnencodableWord(value));
      }
      if addr + 1 >= memory.Length {
        return Fail(OutOfRange);
      }
      var word := EncodeWord(value);
      memory[addr], memory[addr + 1] := word[0], word[1];
      outcome := Pass;
    }

    /** Register 1 := register 1 + register 2, unless that exceeds the ceiling. */
    method Add() returns (outcome: Outcome)
      requires Valid()
      modifies regs
      ensures Valid()
      ensures Applied(old(Snapshot()), MachineSpec.Add(old(Snapshot()), wordMax), outcome, Snapshot())
    {
      if regs[1] + regs[2] > wordMax {
        return Fail(Overflow);
      }
      regs[1] := regs[1] + regs[2];
      outcome := Pass;
    }

    /** Register 1 := register 1 - register 2, unless that is negative. */
    method Sub() returns (outcome: Outcome)
      requires Valid()
      modifies regs
      ensures Valid()
      ensures Applied(old(Snapshot()), MachineSpec.Sub(old(Snapshot())), outcome, Snapshot())
    {
      if regs[1] as int - regs[2] < 0 {
        return Fail(Underflow);
      }
      regs[1] := regs[1] - regs[2];
      outcome := Pass;
    }

    /** One pass of the fetch-decode-execute loop: fetch the opcode at the
        PC, execute it and advance the PC by the stride. `done` tells whether
        the loop ends here, at a HALT or at a fault, and `exit` how; when the
        loop goes on, `exit` is `OutOfFuel`, the exit `Run` reports should
        its fuel end before the next cycle. */
    method Cycle() returns (done: bool, exit: Exit)
      requires Valid()
      modifies memory, regs
      ensures Valid() && memory == old(memory)
      ensures done <==> !exit.OutOfFuel?
      ensures done ==> Snapshot() == old(Snapshot())
      ensures Step(old(Snapshot()), wordMax)
        == if !done then Next(Snapshot()) else if exit.Halted? then Halt else Stop(exit.fault)
    {
      ghost var before := Snapshot();
      var pc := regs[PC];
      if pc >= memory.Length {
        return true, Faulted(OutOfRange);
      }
      var instruction := memory[pc];
      var outcome: Outcome;
      if instruction == OP_LOAD {
        if pc + 2 >= memory.Length {
          return true, Faulted(OutOfRange);
        }
        outcome := LoadWord(memory[pc + 1], memory[pc + 2]);
      } else if instruction == OP_STORE {
        if pc + 2 >= memory.Length {
          return true, Faulted(OutOfRange);
        }
        outcome := StoreWord(memory[pc + 1], memory[pc + 2]);
      } else if instruction == OP_ADD {
        outcome := Add();
      } else if instruction == OP_SUB {
        outcome := Sub();
      } else if instruction == OP_HALT {
        return true, Halted;
      } else {
        return true, Faulted(IllegalInstruction(instruction, pc));
      }
      assert Applied(before, Execute(before, wordMax), outcome, Snapshot());
      if outcome.Fail? {
        return true, Faulted(outcome.fault);
      }
      regs[PC] := regs[PC] + STRIDE;
      assert Snapshot() == Advance(Execute(before, wordMax).value);
      done, exit := false, OutOfFuel;
    }

    /** The fetch-decode-execute loop, for at most `fuel` cycles; it stops at
        HALT or at the first fault. */
    method Run(fuel: nat) returns (exit: Exit)
      requires Valid()
      modifies memory, regs
      ensures Valid() && memory == old(memory)
      ensures MachineSpec.Run(old(Snapshot()), wordMax, fuel) == Final(exit, Snapshot())
    {
      var remaining := fuel;
      while remaining > 0
        invariant Valid() && memory == old(memory)
        invariant MachineSpec.Run(Snapshot(), wordMax, remaining) == MachineSpec.Run(old(Snapshot()), wordMax, fuel)
        decreases remaining
      {
        RunCycle(Snapshot(), wordMax, remaining);
        var done;
        done, exit := Cycle();
        if done {
          return;
        }
        remaining := remaining - 1;
      }
      exit := OutOfFuel;
    }
  }
}
