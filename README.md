# Toy VM, modelled and verified in Dafny

This project models `ToyVM` from `toy_vm.py`: a byte-addressable virtual
machine built as an exercise in computer architecture. It has a 20-byte
memory image that holds both program and data, and three registers.
Register 0 is the program counter (PC). A configurable ceiling, `word_max`,
bounds arithmetic results. The machine runs a fetch-decode-execute loop
over 3-byte instruction slots:

- LOAD (0x01): register ← little-endian word at an address.
- STORE (0x02): register → two bytes at an address.
- ADD (0x03): register 1 ← register 1 + register 2, unless the sum exceeds `word_max`.
- SUB (0x04): register 1 ← register 1 − register 2, unless the result is negative.
- HALT (0xFF): stops.
- Any other byte is an illegal instruction.

After each executed instruction the PC advances by 3.

The project has four modules, one per file:

- `WordCodec` (`word_codec.dfy`): the pure 16-bit little-endian codec,
  `encode_word` and `decode_word`, and their round trips.
- `MachineSpec` (`machine_spec.dfy`): the machine as a value. `State`
  holds the memory image and the register file. There is one pure function
  per operation: `LoadProgram`, `Initial` (the constructor), `LoadWord`,
  `StoreWord`, `Add`, `Sub`, `Step` (one loop iteration) and `Run` (the
  loop, bounded by fuel). The lemmas state what the machine promises.
  Python exceptions become the `Fault` datatype. Every index error of the
  host language becomes `OutOfRange`. The state is left unchanged on every
  fault.
- `Engine` (`engine.dfy`): the class `ToyVM`.
  - `memory` is an `array<Byte>`. `load_program` replaces it with a fresh array.
  - `regs` is an `array<nat>` of length 3, updated in place.
  - `wordMax` is the ceiling.
  - Each method updates the arrays as the Python method does. Its contract
    ties the new state and the reported outcome to the `MachineSpec`
    function of the same name (`Applied`: on success the new state, on
    failure the fault and no change).
  - `Run` is the `while True` loop. Its body, one fetch-decode-execute
    pass, is the method `Cycle`.
- `Scenarios` (`scenarios.dfy`): concrete runs.
  - The two example programs that ship with the machine (5281 + 12 and
    8746 − 2020).
  - The default machine.
  - A program that never halts.
  - A program that starts with an illegal opcode.

Behaviour of the code worth knowing:

- `encode_word` raises, through `bytearray`, for values of 65536 and more:
  the high byte does not fit in a byte. So `EncodeWord` requires
  `n < 65536`, and a STORE of such a register value fails with
  `UnencodableWord`. This can happen only when `word_max` is set above
  65535 (`RunNeverUnencodable`).
- `word_max` bounds only the result of ADD. A LOAD writes any 16-bit value
  into a register, whatever the ceiling.
- The memory size is the constant 20: `load_program` accepts nothing else.
- The examples read their result with `decode_word(memory[14:16])`,
  modelled by `Scenarios.WordAt`.

## Model

| member | source | states |
|---|---|---|
| `WordCodec.EncodeWord` | toy_vm.py:15-17 | for a value below 65536, two bytes whose little-endian value (low + 256·high) is the input |
| `WordCodec.DecodeWord` | toy_vm.py:19-21 | the value of two bytes is below 65536, with the first byte as its remainder by 256 and the second as its quotient |
| `WordCodec.DecodeEncode` | toy_vm.py:15-21 | decoding an encoded value gives it back, for every value 0..65535 |
| `WordCodec.EncodeDecode` | toy_vm.py:15-21 | encoding a decoded pair of bytes gives the same two bytes back |
| `WordCodec.EncodeWordIsDivMod` | toy_vm.py:15-17 | the only byte pair storing n is [n mod 256, n div 256] |
| `MachineSpec.LoadProgram` | toy_vm.py:23-27 | succeeds iff the program has exactly 20 bytes; then the memory is exactly the program and the registers are unchanged; otherwise the fault carries the wrong length |
| `MachineSpec.Initial` | toy_vm.py:6-13 | an empty program gives the default image (HALT then zeros), a 20-byte program is loaded, any other length fails; registers start at zero |
| `MachineSpec.LoadWord` | toy_vm.py:29-31 | succeeds iff the register index is below 3 and addr + 1 is inside memory; then that register holds memory[addr] + 256·memory[addr+1], and memory and the other registers are unchanged |
| `MachineSpec.StoreWord` | toy_vm.py:33-35 | fails for a register index of 3 or more, then for a value without a two-byte encoding, then for an address whose second byte is outside memory; on success bytes addr and addr+1 hold the value low byte first, every other byte and all registers are unchanged |
| `MachineSpec.Add` | toy_vm.py:37-42 | fails with Overflow iff register 1 + register 2 exceeds the ceiling; otherwise register 1 becomes the sum (at most the ceiling) and registers 0 and 2 and memory are unchanged |
| `MachineSpec.Sub` | toy_vm.py:44-49 | fails with Underflow iff register 1 < register 2; otherwise register 1 becomes the difference (so new r1 + r2 = old r1) and registers 0 and 2 and memory are unchanged |
| `MachineSpec.Execute` | toy_vm.py:58-67 | a LOAD or STORE whose operand bytes lie past the end of memory fails with OutOfRange; otherwise LOAD and STORE are the primitives applied to the two bytes after the opcode, and ADD and SUB are the ALU primitives |
| `MachineSpec.Step` | toy_vm.py:53-75 | a PC at or past 20 faults with OutOfRange; HALT at the PC is recognised iff the byte there is 0xFF; any byte other than 0x01-0x04 and 0xFF faults reporting that byte and the PC; only 0x01-0x04 continue |
| `MachineSpec.StepAdvancesByStride` | toy_vm.py:58-75 | an operation whose primitive fails stops with that fault; otherwise the next state has the primitive's memory and registers 1 and 2, and the PC is old PC + 3, or loaded word + 3 after a LOAD into register 0 |
| `MachineSpec.StepFaults` | toy_vm.py:58-67 | a LOAD or STORE fetched at PC 18 or 19 stops with OutOfRange, an ADD beyond the ceiling with Overflow, a SUB below zero with Underflow |
| `MachineSpec.StepLoad` | toy_vm.py:58-60 | LOAD with operands in range sets the named register to the word at the named address, then adds 3 to the (possibly just loaded) PC |
| `MachineSpec.StepStore` | toy_vm.py:61-63 | STORE with operands in range writes the register's two bytes, low first, at the named address and adds 3 to the PC |
| `MachineSpec.StepAdd` | toy_vm.py:64-65 | ADD within the ceiling yields registers [PC + 3, r1 + r2, r2] and unchanged memory, whatever the operand bytes hold |
| `MachineSpec.StepSub` | toy_vm.py:66-67 | SUB without underflow yields registers [PC + 3, r1 − r2, r2] and unchanged memory, whatever the operand bytes hold |
| `MachineSpec.Run` | toy_vm.py:51-77 | the final state keeps 20 bytes and 3 registers; a halted run ends in a state whose PC points at HALT, a faulted run in the state where the failing instruction was fetched (an illegal opcode reports that state's PC and byte) |
| `MachineSpec.RunCycle` | toy_vm.py:53-75 | one cycle with fuel left: HALT and faults end the run in place, an executed instruction passes the remaining fuel on to the next state |
| `MachineSpec.RunFollowsTrace` | toy_vm.py:53-77 | a run from the head of a trace of executed instructions that ends at a HALT or a fault ends there, halted or with that fault, once it has a cycle of fuel per state |
| `MachineSpec.RunMoreFuel` | toy_vm.py:53-77 | a run that halts or faults within some fuel ends identically with any larger fuel |
| `MachineSpec.FixedPointSpins` | toy_vm.py:53-75 | a state whose instruction leads back to itself never halts or faults, whatever the fuel |
| `MachineSpec.StepKeepsOperandsFitWord` | toy_vm.py:29-49 | with a ceiling below 65536, an instruction keeps registers 1 and 2 below 65536 and never fails on an unencodable STORE |
| `MachineSpec.RunNeverUnencodable` | toy_vm.py:51-77 | with a ceiling below 65536 and encodable registers 1 and 2, no run stops on an unencodable STORE |
| `MachineSpec.StoreThenLoad` | toy_vm.py:29-35 | a LOAD from the address just stored to gives any register the stored register's value |
| `MachineSpec.LoadThenStore` | toy_vm.py:29-35 | storing a register just loaded from an address back to that address leaves memory as it was |
| `MachineSpec.AddThenSub` | toy_vm.py:37-49 | a SUB after an ADD that did not overflow restores the state |
| `Engine.ToyVM.constructor` | toy_vm.py:9-13 | a VM built without a program holds the default image in a fresh array, zero registers and the given ceiling |
| `Engine.ToyVM.New` | toy_vm.py:6-13 | builds a fresh VM in the state `Initial` gives, or reports the wrong program length |
| `Engine.ToyVM.LoadProgram` | toy_vm.py:23-27 | a 20-byte program replaces memory by a fresh array holding exactly it; any other length reports the length and keeps the old array and contents |
| `Engine.ToyVM.LoadWord` | toy_vm.py:29-31 | updates the register array in place exactly as `MachineSpec.LoadWord`, or reports its fault and changes nothing |
| `Engine.ToyVM.StoreWord` | toy_vm.py:33-35 | updates two bytes of the memory array in place exactly as `MachineSpec.StoreWord`, or reports its fault and changes nothing |
| `Engine.ToyVM.Add` | toy_vm.py:37-42 | updates register 1 in place exactly as `MachineSpec.Add`, or reports Overflow and changes nothing |
| `Engine.ToyVM.Sub` | toy_vm.py:44-49 | updates register 1 in place exactly as `MachineSpec.Sub`, or reports Underflow and changes nothing |
| `Engine.ToyVM.Cycle` | toy_vm.py:54-75 | one pass of the loop body moves the arrays to the next state `Step` gives, or stops at HALT or a fault with memory and registers unchanged; `done` is false exactly when the exit is left at `OutOfFuel`, the value `Run` returns if its fuel ends there |
| `Engine.ToyVM.Run` | toy_vm.py:51-77 | the loop leaves the arrays in the final state `MachineSpec.Run` gives and returns its exit: halted, faulted (with the fault) or out of fuel |
| `Scenarios.WordAt` | toy_vm.py:93 | the word the examples read at an address is memory[addr] + 256·memory[addr+1] |
| `Scenarios.DefaultHaltsAtOnce` | toy_vm.py:9-12 | the default VM halts on its first cycle with image and registers unchanged, for any ceiling |
| `Scenarios.ExampleLayoutComputes` | toy_vm.py:80-108 | any program laid out like the examples (LOAD r1 ← word 16, LOAD r2 ← word 18, ADD or SUB, STORE r1 → 14, HALT) halts with the result at 14 and in register 1 when the operation neither overflows, nor underflows, nor leaves a result of 65536 or more (which a ceiling above 65535 allows, and which then faults the STORE) |
| `Scenarios.AdditionProgramStoresSum` | toy_vm.py:80-93 | the addition example halts on the default VM with 5293 at address 14 |
| `Scenarios.SubtractionProgramStoresDifference` | toy_vm.py:95-108 | the subtraction example halts on the default VM with 6726 at address 14 |
| `Scenarios.SpinProgramNeverStops` | toy_vm.py:53-75 | a LOAD of the zero word into the PC at address 3 repeats forever, so the loop need not terminate |
| `Scenarios.IllegalFirstOpcode` | toy_vm.py:70-73 | a program whose first byte is not an opcode faults at once, reporting that byte and PC 0, with nothing changed |

## Left out

- Python exception classes and message texts, including the hexadecimal formatting of the illegal-instruction message. The `Fault` datatype carries the opcode and the PC instead.
- `MachineSpec.StoreWord`: a STORE whose address is 19 or more fails with `OutOfRange`. In the code the slice assignment then grows the bytearray, to 21 or 22 bytes, and execution continues. This is an accident of Python slicing; the model keeps memory at 20 bytes.
- `MachineSpec.Run`, `Engine.ToyVM.Run`: the loop is bounded by a `fuel` argument and can end with `OutOfFuel`, which the code cannot do. The code's `while True` may never end (`SpinProgramNeverStops`). A run that reaches a HALT or a fault after k executed instructions ends there with any fuel of k + 1 or more (`RunFollowsTrace`), and more fuel changes no halted or faulted result (`RunMoreFuel`).
- `WordCodec.EncodeWord`: requires a value below 65536. For larger values the code raises an error from `bytearray`, and the model represents that error only as the `UnencodableWord` fault of STORE.
- `Engine.ToyVM.New`: takes the program as a sequence of bytes. So the code's `ValueError` for list elements outside 0..255, and its other iterable program types, are not modelled. "No program" (`None` or any empty program, which is falsy in Python) is the empty sequence.
- Negative register indices or addresses, which Python would wrap around. Operands are memory bytes, so they never occur.
- `word_max` of a type other than integer.
- The `__main__` harness as executable code. Its two programs and expected results appear as the lemmas `AdditionProgramStoresSum` and `SubtractionProgramStoresDifference`.
