/** Concrete programs for the toy VM: the addition and subtraction examples
    that accompany the machine, the default image, and a program that never
    halts. */
module Scenarios {
  import opened WordCodec
  import opened MachineSpec

  /** Loads the words at 16 and 18 into registers 1 and 2, adds them, stores
      register 1 at 14 and halts: 5281 + 12. */
  const ADDITION_PROGRAM: seq<Byte> := [
    0x01, 0x01, 0x10,
    0x01, 0x02, 0x12,
    0x03, 0x01, 0x02,
    0x02, 0x01, 0x0e,
    0xff,
    0x00,
    0x00, 0x00,
    0xa1, 0x14,
    0x0c, 0x00]

  /** The same layout with SUB in place of ADD: 8746 - 2020. */
  const SUBTRACTION_PROGRAM: seq<Byte> := [
    0x01, 0x01, 0x10,
    0x01, 0x02, 0x12,
    0x04, 0x01, 0x02,
    0x02, 0x01, 0x0e,
    0xff,
    0x00,
    0x00, 0x00,
    0x2a, 0x22,
    0xe4, 0x07]

  /** ADD (0 + 0), then a LOAD of the zero word at 18 into the program
      counter, which the stride turns back into 3: the LOAD repeats forever. */
  const SPIN_PROGRAM: seq<Byte> := [
    0x03, 0x00, 0x00,
    0x01, 0x00, 0x12,
    0x00, 0x00, 0x00, 0x00, 0x00, 0x00, 0x00, 0x00, 0x00, 0x00, 0x00, 0x00,
    0x00, 0x00]

  /** The word stored at `addr`, `addr + 1`, as the examples read their result. */
  function WordAt(s: State, addr: nat): (n: nat)
    requires Valid(s) && addr + 1 < MEMORY_SIZE
    ensures n == s.memory[addr] + BYTE_BASE * s.memory[addr + 1]
  {
    DecodeWord(s.memory[addr..addr + 2])
  }

  /** A VM built without a program halts at once, leaving its image and its
      registers as they were. */
  lemma DefaultHaltsAtOnce(wordMax: int, fuel: nat)
    requires fuel > 0
    ensures Initial([]).Success?
    ensures Run(Initial([]).value, wordMax, fuel) == Final(Halted, Initial([]).value)
  {
    assert DEFAULT_IMAGE[0] == OP_HALT;
  }

  /** The layout both examples share: LOAD the word at 16 into register 1,
      LOAD the word at 18 into register 2, apply `op`, STORE register 1 at
      14, HALT; bytes 13 to 19 are data. */
  predicate ExampleLayout(p: seq<Byte>, op: Byte) {
    |p| == MEMORY_SIZE
    && p[..13] == [OP_LOAD, 1, 16, OP_LOAD, 2, 18, op, 1, 2, OP_STORE, 1, 14, OP_HALT]
  }

  /** The left operand of the example layout: the word at 16. */
  function LeftOperand(p: seq<Byte>): (n: nat)
    requires |p| == MEMORY_SIZE
    ensures n < WORD_LIMIT
  {
    DecodeWord(p[16..18])
  }

  /** The right operand of the example layout: the word at 18. */
  function RightOperand(p: seq<Byte>): (n: nat)
    requires |p| == MEMORY_SIZE
    ensures n < WORD_LIMIT
  {
    DecodeWord(p[18..20])
  }

  lemma LayoutFirstLoad(p: seq<Byte>, op: Byte, wordMax: int)
    requires ExampleLayout(p, op)
    ensures Step(State(p, ZERO_REGS), wordMax) == Next(State(p, [3, LeftOperand(p), 0]))
  {
    assert p[0] == OP_LOAD && p[1] == 1 && p[2] == 16;
    StepLoad(State(p, ZERO_REGS), wordMax);
  }

  lemma LayoutSecondLoad(p: seq<Byte>, op: Byte, wordMax: int)
    requires ExampleLayout(p, op)
    ensures Step(State(p, [3, LeftOperand(p), 0]), wordMax)
      == Next(State(p, [6, LeftOperand(p), RightOperand(p)]))
  {
    assert p[3] == OP_LOAD && p[4] == 2 && p[5] == 18;
    StepLoad(State(p, [3, LeftOperand(p), 0]), wordMax);
  }

  lemma LayoutOperation(p: seq<Byte>, op: Byte, wordMax: int, c: nat)
    requires ExampleLayout(p, op)
    requires || (op == OP_ADD && LeftOperand(p) + RightOperand(p) <= wordMax && c == LeftOperand(p) + RightOperand(p))
             || (op == OP_SUB && LeftOperand(p) >= RightOperand(p) && c == LeftOperand(p) - RightOperand(p))
    ensures Step(State(p, [6, LeftOperand(p), RightOperand(p)]), wordMax)
      == Next(State(p, [9, c, RightOperand(p)]))
  {
    assert p[6] == op;
    if op == OP_ADD {
      StepAdd(State(p, [6, LeftOperand(p), RightOperand(p)]), wordMax);
    } else {
      StepSub(State(p, [6, LeftOperand(p), RightOperand(p)]), wordMax);
    }
  }

  lemma LayoutStoreAndHalt(p: seq<Byte>, op: Byte, wordMax: int, c: nat)
    requires ExampleLayout(p, op) && c < WORD_LIMIT
    ensures Step(State(p, [9, c, RightOperand(p)]), wordMax)
      == Next(State(p[14 := c % BYTE_BASE][15 := c / BYTE_BASE], [12, c, RightOperand(p)]))
    ensures Step(State(p[14 := c % BYTE_BASE][15 := c / BYTE_BASE], [12, c, RightOperand(p)]), wordMax) == Halt
  {
    assert p[9] == OP_STORE && p[10] == 1 && p[11] == 14 && p[12] == OP_HALT;
    StepStore(State(p, [9, c, RightOperand(p)]), wordMax);
  }

  /** The five cycles of a program with the example layout, `c` being the
      result of its operation. */
  lemma ExampleLayoutTrace(p: seq<Byte>, op: Byte, wordMax: int, c: nat)
    requires ExampleLayout(p, op) && c < WORD_LIMIT
    requires || (op == OP_ADD && LeftOperand(p) + RightOperand(p) <= wordMax && c == LeftOperand(p) + RightOperand(p))
             || (op == OP_SUB && LeftOperand(p) >= RightOperand(p) && c == LeftOperand(p) - RightOperand(p))
    ensures Run(State(p, ZERO_REGS), wordMax, 5)
      == Final(Halted, State(p[14 := c % BYTE_BASE][15 := c / BYTE_BASE], [12, c, RightOperand(p)]))
  {
    var a, b := LeftOperand(p), RightOperand(p);
    LayoutFirstLoad(p, op, wordMax);
    LayoutSecondLoad(p, op, wordMax);
    LayoutOperation(p, op, wordMax, c);
    LayoutStoreAndHalt(p, op, wordMax, c);
    var trace := [
      State(p, ZERO_REGS), State(p, [3, a, 0]), State(p, [6, a, b]), State(p, [9, c, b]),
      State(p[14 := c % BYTE_BASE][15 := c / BYTE_BASE], [12, c, b])];
    assert IsTrace(trace, wordMax);
    RunFollowsTrace(trace, wordMax, 5);
  }

  /** Any program with the example layout whose operation neither overflows,
      nor underflows, nor leaves a result without a two-byte encoding, halts
      after five cycles with the result at 14, the result in register 1, the
      right operand in register 2 and the PC at the HALT; more fuel changes
      nothing. */
  lemma ExampleLayoutComputes(p: seq<Byte>, op: Byte, wordMax: int, fuel: nat)
    requires ExampleLayout(p, op) && fuel >= 5
    requires || (op == OP_ADD && LeftOperand(p) + RightOperand(p) <= wordMax && LeftOperand(p) + RightOperand(p) < WORD_LIMIT)
             || (op == OP_SUB && LeftOperand(p) >= RightOperand(p))
    ensures Initial(p).Success?
    ensures
      var c := if op == OP_ADD then LeftOperand(p) + RightOperand(p) else LeftOperand(p) - RightOperand(p);
      var f := Run(Initial(p).value, wordMax, fuel);
      && f.exit == Halted
      && WordAt(f.state, 14) == c
      && f.state.regs == [12, c, RightOperand(p)]
  {
    var c := if op == OP_ADD then LeftOperand(p) + RightOperand(p) else LeftOperand(p) - RightOperand(p);
    var s0 := State(p, ZERO_REGS);
    ExampleLayoutTrace(p, op, wordMax, c);
    assert Initial(p) == Success(s0);
    RunMoreFuel(s0, wordMax, 5, fuel);
  }

  /** The addition example halts with 5281 + 12 = 5293 at address 14. */
  lemma AdditionProgramStoresSum(fuel: nat)
    requires fuel >= 5
    ensures Initial(ADDITION_PROGRAM).Success?
    ensures Run(Initial(ADDITION_PROGRAM).value, DEFAULT_WORD_MAX, fuel).exit == Halted
    ensures WordAt(Run(Initial(ADDITION_PROGRAM).value, DEFAULT_WORD_MAX, fuel).state, 14) == 5293
  {
    assert ExampleLayout(ADDITION_PROGRAM, OP_ADD);
    assert LeftOperand(ADDITION_PROGRAM) == 5281 && RightOperand(ADDITION_PROGRAM) == 12;
    ExampleLayoutComputes(ADDITION_PROGRAM, OP_ADD, DEFAULT_WORD_MAX, fuel);
  }

  /** The subtraction example halts with 8746 - 2020 = 6726 at address 14. */
  lemma SubtractionProgramStoresDifference(fuel: nat)
    requires fuel >= 5
    ensures Initial(SUBTRACTION_PROGRAM).Success?
    ensures Run(Initial(SUBTRACTION_PROGRAM).value, DEFAULT_WORD_MAX, fuel).exit == Halted
    ensures WordAt(Run(Initial(SUBTRACTION_PROGRAM).value, DEFAULT_WORD_MAX, fuel).state, 14) == 6726
  {
    assert ExampleLayout(SUBTRACTION_PROGRAM, OP_SUB);
    assert LeftOperand(SUBTRACTION_PROGRAM) == 8746 && RightOperand(SUBTRACTION_PROGRAM) == 2020;
    ExampleLayoutComputes(SUBTRACTION_PROGRAM, OP_SUB, DEFAULT_WORD_MAX, fuel);
  }

  /** The spinning program neither halts nor faults, whatever the fuel: the
      fetch-decode-execute loop of the machine need not terminate. */
  lemma SpinProgramNeverStops(wordMax: int, fuel: nat)
    requires wordMax >= 0
    ensures Initial(SPIN_PROGRAM).Success?
    ensures Run(Initial(SPIN_PROGRAM).value, wordMax, fuel).exit == OutOfFuel
  {
    var s0 := Initial(SPIN_PROGRAM).value;
    var s1 := State(SPIN_PROGRAM, [3, 0, 0]);
    assert Step(s0, wordMax) == Next(s1);
    assert Step(s1, wordMax) == Next(s1);
    if fuel > 0 {
      FixedPointSpins(s1, wordMax, fuel - 1);
    }
  }

  /** A program whose first byte is no opcode faults at once, reporting that
      byte and address 0. */
  lemma IllegalFirstOpcode(program: seq<Byte>, wordMax: int, fuel: nat)
    requires |program| == MEMORY_SIZE && fuel > 0
    requires !IsOperation(program[0]) && program[0] != OP_HALT
    ensures Initial(program).Success?
    ensures Run(Initial(program).value, wordMax, fuel)
      == Final(Faulted(IllegalInstruction(program[0], 0)), Initial(program).value)
  {
  }
}
