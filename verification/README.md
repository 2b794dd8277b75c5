# Universal Machine interpreters, modelled in Dafny

The repository holds several versions of an interpreter for the 32-bit
"Universal Machine" of the ICFP Programming Contest 2006. The machine has:

- eight 32-bit registers;
- a program counter;
- 14 instructions: opcodes 0-12 are the standard operators and 13 is Load Value;
- a memory of numbered segments of words. Segment 0 holds the running program. Unmapped IDs are reused most recently unmapped first.

This project models the following parts of the repository:

- **Instruction decoding.** The opcode and register fields are extracted from a word. Two implementations are modelled:
  - `bp_get_u` and `get_reg_i` in change9, which use division;
  - change13, which uses a pair of 64-bit shifts.
- **The abstract machine** (module `Machine`). It has a function per instruction, a step function and a run loop bounded by fuel.
- **Three interpreters proved against the abstract machine:**
  - change9 and change13 (module `VectorUM`), which store segments in growable vectors;
  - the `Seq_T` version at the top of the repository (module `SeqUM`).
- **The growable vector** of change8 (module `DynamicArray`). The copies of it in change9 and change13 are covered by the same model, except for `remove_at`: there the index is checked only against the size, and the shrink test reads the size from before the removal. That variant is `DynamicArray.Vector.RemoveAtSizeBefore`.
- **The loader** of change5, which packs a program image four bytes to a word, big-endian (module `Loader`).
- **The test-program writer** of change1 (module `UmLab`). It has instruction encoders, per-instruction wrappers and `Um_write_sequence`. Three of its test programs are run on the abstract machine to the outputs its test table expects (module `Scenarios`).
- **The command-line driver** of change2 (module `Driver`).

Words are integers in [0, 2^32) and bytes are integers in [0, 256). Every 32-bit wrap-around is written out with `ToWord`, which reduces modulo 2^32.

The abstract machine has three possible statuses:

- `Running(state)`;
- `Halted(state)`;
- `Faulted(fault, state)`. Each place where the C code prints a message and exits becomes a named `Fault`.

The machine follows the *corrected* behaviour wherever the code has a defect. Each defect is listed under "## Findings", with a member that models the code as written and an input that shows the difference.

Module layout:

| file | module | what it holds |
|---|---|---|
| words.dfy | Words | words, bytes, register indices, wrap-around, NAND |
| arith.dfy | Arith | powers of two; division and remainder facts |
| bitpack.dfy | Bitpack | bit fields, `bp_get_u` (two versions), `get_reg_i` (two versions), the opcode shift |
| wrappers.dfy | Wrappers | `Option`, `Result` |
| machine.dfy | Machine | the abstract state, the instruction functions, `Step`, `Run`, `Boot` |
| machine_lemmas.dfy | MachineLemmas | invariants and properties of the abstract machine |
| instructions.dfy | Instructions | the routines that work on the register array alone, and the segment-building loops |
| vector.dfy | DynamicArray | `uint32_vector` as a class over an array |
| vector_um.dfy | VectorUM | the interpreters of change9 and change13 as a class |
| seq_um.dfy | SeqUM | the interpreter of umInstructions.c and change5/um.c as a class |
| loader.dfy | Loader | byte-to-word packing and its inverse |
| umlab.dfy | UmLab | the encoders, the wrappers and the word stream of change1/umlab.c |
| scenarios.dfy | Scenarios | three change1 test programs run on the abstract machine |
| driver.dfy | Driver | `checkCommandline` and `main` of change2/driver.c |
| aswritten.dfy | AsWritten | the code as written, where it differs from the model |

## Model

| member | source | states |
|---|---|---|
| Words.NandWithZero | change9/umInstructions.c:477-481 | NAND with an all-zero operand gives all ones, whichever side the zero is on |
| Words.DecrementThenIncrement | change9/umInstructions.c:253-270 | decrementing the PC and then incrementing it, both modulo 2^32, gives back the value that was set, even for 0 |
| Bitpack.GetField | change9/umInstructions.c:770-794 | the extracted field is below 2^width |
| Bitpack.Decompose | change9/umInstructions.c:770-794 | a word is the part above the field, plus the field shifted to its lsb, plus the part below the field |
| Bitpack.SetFieldSpec | change1/umlab.c:33-47 | after a field is stored, reading it gives the value stored; the bits below and above it are unchanged |
| Bitpack.NewU | change1/umlab.c:33-47 | Bitpack_newu fails (raises the overflow exception) exactly when the value does not fit in the field width |
| Bitpack.NewUFields | change1/umlab.c:33-47 | when Bitpack_newu succeeds, the new field reads back as the value and the other bits are kept |
| Bitpack.SetEmptyField | change1/umlab.c:33-47 | storing into a field that holds zero adds value * 2^lsb |
| Bitpack.SetFieldInWord | change1/umlab.c:33-47 | a field inside bits 0-31 stored into a word gives a word |
| Bitpack.ShiftExtract | change13/umInstructions.c:403-411 | shifting a 64-bit word left by 64-(lsb+width), then right by 64-width, gives the field |
| Bitpack.BpGetU | change9/umInstructions.c:770-794 | change9's bp_get_u gives bits [lsb, lsb+width) of the word, zero-extended; width 0 gives 0 |
| Bitpack.BpGetUShift | change13/umInstructions.c:403-411 | change13's shift-based bp_get_u gives the same field |
| Bitpack.Opcode | change9/umInstructions.c:200 | the opcode (bits 28-31) is below 16 |
| Bitpack.LoadValueImmediate | change13/umInstructions.c:356-360 | the Load Value immediate (bits 0-24) is below 2^25 |
| Bitpack.DecodedFields | change9/umInstructions.c:757-767 | the opcode is bits 28-31; C, B and A are bits 0-2, 3-5 and 6-8; the Load Value register is bits 25-27; the immediate is bits 0-24 |
| Bitpack.GetRegI | change9/umInstructions.c:757-767 | get_reg_i through bp_get_u gives the 3-bit register field named by 'a', 'b' or 'c', so the index is below 8 |
| Bitpack.GetRegIShift | change13/umInstructions.c:388-400 | the shift pairs <<61>>61, <<58>>61 and <<55>>61 give the fields C, B and A; any other character falls to the A field |
| Bitpack.OpcodeBpGetU | change9/umInstructions.c:200 | bp_get_u(instr, 4, 28) is the top four bits of the instruction |
| Bitpack.OpcodeShift | change13/umInstructions.c:160-161 | shifting the instruction, widened to 64 bits, left by 32 and then right by 60 gives the top four bits, so the result is in 0..15 |
| Bitpack.LoadValueFields | change9/umInstructions.c:333-337 | load_value writes to the register in bits 25-27 and uses the value in bits 0-24 |
| Bitpack.LoadValueFieldsShift | change13/umInstructions.c:356-360 | case 13 reads the same register and value |
| Loader.Pack | change5/um.c:59-60 | the word count is the byte count divided by 4, truncated, so trailing bytes are ignored |
| Loader.WordBytes | change1/umlab.c:150-152 | a word is written as four bytes |
| Loader.Serialize | change1/umlab.c:146-157 | a stream of n words is written as 4n bytes |
| Loader.WordBytesAreFields | change1/umlab.c:150-152 | the four bytes are the 8-bit fields at lsb 24, 16, 8 and 0, most significant first |
| Loader.PackWordBytes | change5/um.c:67-74 | packing the four bytes written for a word gives the word back |
| Loader.WordBytesPack | change5/um.c:67-74 | writing out a packed word gives back the four bytes |
| Loader.SerializeAt | change1/umlab.c:146-157 | bytes 4i to 4i+3 of the written file are the bytes of word i |
| Loader.PackSerialize | change5/um.c:59-74 | loading a file written by Um_write_sequence gives back the same words |
| Loader.SerializePack | change5/um.c:59-74 | writing out a loaded image gives back its bytes, without the trailing ones that do not fill a word |
| Loader.ByteStillEmpty | change5/um.c:67-74 | before byte j is packed into the partial word, its field still holds zero |
| Loader.PackStep | change5/um.c:67-74 | packing byte j with Bitpack_newu at lsb 24-8j extends the partial word by that byte |
| Loader.PackSegment | change5/um.c:59-74 | the nested packing loop builds exactly Pack(bytes): word i is byte[4i]*2^24 + byte[4i+1]*2^16 + byte[4i+2]*2^8 + byte[4i+3] |
| DynamicArray.CapacityAtLeastInitial | change8/dynamicIntArray.c:16-31 | every capacity a vector can reach is at least the initial 64 |
| DynamicArray.Vector.constructor | change8/dynamicIntArray.c:16-31 | a new vector is empty and has capacity 64 |
| DynamicArray.Vector.DoubleCapacity | change8/dynamicIntArray.c:41-56 | the capacity doubles and the elements are kept in order |
| DynamicArray.Vector.HalfCapacity | change8/dynamicIntArray.c:59-79 | at capacity 64 or below nothing changes; above 64 the capacity halves and the elements that fit in it are kept in order; when 4*size < capacity, every element is kept |
| DynamicArray.Vector.AddHi | change8/dynamicIntArray.c:81-88 | the value goes at the end and the earlier elements are unchanged; the capacity doubles exactly when the vector was full |
| DynamicArray.Vector.Get | change8/dynamicIntArray.c:90-98 | it succeeds exactly when 0 <= i < size, and then gives element i; otherwise it reports the abort |
| DynamicArray.Vector.Put | change8/dynamicIntArray.c:100-108 | it succeeds exactly when 0 <= i < size, and then only element i changes; otherwise nothing changes |
| DynamicArray.Vector.AddAt | change8/dynamicIntArray.c:110-125 | it succeeds exactly when 0 <= i < size; the value is inserted at i and the elements from i on move up one |
| DynamicArray.Vector.RemoveAt | change8/dynamicIntArray.c:127-143 | it succeeds exactly when 0 <= i < size, and returns the old element i; the others keep their order; the capacity halves only when four times the new size (after the removal) is below the capacity and the capacity is above 64 |
| DynamicArray.Vector.ShiftDownOver | change8/dynamicIntArray.c:135-138 | the elements after i move down one place over it and the size drops by one; the buffer and capacity stay |
| DynamicArray.Vector.RemoveAtSizeBefore | change9/umInstructions.c:912-929 | it succeeds exactly when i < size, and returns the old element i; the others keep their order; the capacity halves only when four times the size before the removal is below the capacity and the capacity is above 64 |
| DynamicArray.Vector.IsEmpty | change8/dynamicIntArray.c:145-149 | true exactly when there are no elements |
| DynamicArray.Vector.Length | change8/dynamicIntArray.c:151-155 | the number of elements |
| DynamicArray.Vector.Clear | change8/dynamicIntArray.c:157-164 | afterwards the vector is empty, with capacity 64 |
| DynamicArray.Vector.ClearFromSnapshot | change13/umInstructions.c:557-581 | change13's clear, which tests a copy of the capacity taken before its loop, also ends empty with capacity 64 |
| Machine.Zeros | change9/umInstructions.c:552-557 | a new segment of n words, all zero |
| Machine.SetRegister | change9/umInstructions.c:333-337 | register a takes the value and nothing else changes |
| Machine.ConditionalMove | change9/umInstructions.c:495-500 | r[A] takes r[B] when r[C] != 0; otherwise the state is unchanged; only r[A] can change |
| Machine.SegmentedLoad | change9/umInstructions.c:625-650 | faults on an unmapped segment or an offset at or past the segment's end (both directions); otherwise r[A] takes the word and nothing else changes |
| Machine.SegmentedStore | change9/umInstructions.c:664-687 | faults on an unmapped segment or an offset at or past its end (both directions); otherwise only that word changes, to r[C] |
| Machine.Addition | change9/umInstructions.c:411-417 | r[A] is r[B] + r[C] modulo 2^32; only r[A] changes |
| Machine.Multiplication | change9/umInstructions.c:432-438 | r[A] is r[B] * r[C] modulo 2^32; only r[A] changes |
| Machine.Division | change9/umInstructions.c:453-462 | faults exactly when r[C] = 0, before any register is written; otherwise r[A] is r[B] / r[C] and only r[A] changes |
| Machine.BitwiseNand | change9/umInstructions.c:477-481 | r[A] is ~(r[B] & r[C]); only r[A] changes |
| Machine.MapSegment | change9/umInstructions.c:547-574 | with a non-empty free list, it pops the most recently freed ID and installs r[C] zero words there; otherwise it appends a slot and returns the old slot count; r[B] receives the ID; it keeps the machine well formed |
| Machine.UnmapSegment | change9/umInstructions.c:589-611 | faults exactly on ID 0 or an ID that is not mapped; otherwise the slot is emptied and the ID pushed on the free list |
| Machine.Output | change9/umInstructions.c:387-396 | faults exactly when r[C] > 255; otherwise the byte is appended to the output |
| Machine.Input | change9/umInstructions.c:515-531 | r[C] takes the next input byte, or 0xFFFFFFFF at end of input; only r[C] and the input change |
| Machine.LoadProgram | change9/umInstructions.c:703-739 | faults exactly on an unmapped r[B]; for r[B] != 0, segment 0 becomes a copy of segment r[B], which is unchanged; for r[B] = 0 memory is unchanged; the PC becomes r[C] |
| Machine.LoadValue | change13/umInstructions.c:356-360 | the register takes the immediate and nothing else changes |
| Machine.Fetch | change9/umInstructions.c:197-199 | an instruction is fetched exactly when segment 0 is mapped and the PC is inside it, and then it is the word at the PC |
| Machine.Decode | change9/umInstructions.c:200 | the decoded opcode is below 16 and the immediate below 2^25 |
| Machine.Dispatch | change9/umInstructions.c:202-269 | a fault leaves the state unchanged, and every instruction keeps the machine well formed |
| Machine.Execute | change9/umInstructions.c:200-270 | a fault leaves the state unchanged, and every instruction keeps the machine well formed |
| Machine.Step | change9/umInstructions.c:197-270 | a fault leaves the state unchanged, and a step keeps the machine well formed |
| Machine.RunUnfold | change9/umInstructions.c:195-271 | a run with no fuel left stops Running; otherwise it is one step followed by the rest of the run when the step keeps running |
| Machine.Boot | change5/um.c:20-35 | the booted machine has zero registers, PC 0, no free IDs and the program as its only segment, and satisfies the invariant |
| MachineLemmas.SameMappingKeepsFreeList | change9/umInstructions.c:589-611 | a step that maps and unmaps nothing keeps the free list exactly the set of empty slots |
| MachineLemmas.MapReuseKeepsFreeList | change9/umInstructions.c:560-567 | mapping at a popped ID keeps the free list exactly the set of empty slots |
| MachineLemmas.MapAppendKeepsFreeList | change9/umInstructions.c:568-573 | mapping at a new slot keeps the free list exactly the set of empty slots |
| MachineLemmas.MapKeepsFreeList | change9/umInstructions.c:547-574 | map keeps the free list exactly the set of empty slots |
| MachineLemmas.UnmapKeepsFreeList | change9/umInstructions.c:589-611 | unmap keeps the free list exactly the set of empty slots, with no repeated ID |
| MachineLemmas.SameStoreKeepsInv | change9/umInstructions.c:202-269 | an instruction that leaves the slots and free list alone keeps the invariant |
| MachineLemmas.ExecuteStoreKeepsInv | change9/umInstructions.c:664-687 | segmented store keeps the invariant |
| MachineLemmas.ExecuteMapKeepsInv | change9/umInstructions.c:547-574 | map keeps the invariant |
| MachineLemmas.ExecuteUnmapKeepsInv | change9/umInstructions.c:589-611 | unmap keeps the invariant |
| MachineLemmas.ExecuteLoadProgramKeepsInv | change9/umInstructions.c:703-739 | load program keeps the invariant |
| MachineLemmas.ExecuteRegisterOpKeepsInv | change9/umInstructions.c:411-500 | the register instructions keep the invariant |
| MachineLemmas.ExecuteOtherKeepsInv | change9/umInstructions.c:233-269 | halt, output, input, load value and the invalid opcodes keep the invariant |
| MachineLemmas.ExecuteKeepsInv | change9/umInstructions.c:202-269 | every instruction that does not fault keeps the invariant: the free list is exactly the set of empty slots, has no repeats and never holds 0, and the machine is well formed |
| MachineLemmas.StepKeepsInv | change9/umInstructions.c:195-271 | every step that does not fault keeps the invariant |
| MachineLemmas.IterateKeeps | change9/umInstructions.c:195-271 | a property that every step keeps holds at the end of any run |
| MachineLemmas.RunKeepsInv | change9/umInstructions.c:195-271 | a run of any length keeps the invariant |
| MachineLemmas.MapTakesUnmappedSlot | change9/umInstructions.c:547-574 | in a machine with the invariant, map succeeds; the ID it returns was empty before, is non-zero, and is now mapped to r[C] zeros |
| MachineLemmas.UnmapThenMapReusesId | change9/umInstructions.c:560-567 | the next map after an unmap returns the ID just unmapped |
| MachineLemmas.StoreThenLoad | change9/umInstructions.c:625-687 | a load from the place just stored gives back the stored value |
| MachineLemmas.HaltsExactlyOnOpcode7 | change9/umInstructions.c:195-236 | a step halts exactly when the fetched opcode is 7 |
| MachineLemmas.InvalidOpcodeFaults | change9/umInstructions.c:264-268 | a step faults with "invalid opcode" exactly when the fetched opcode is 14 or 15 |
| MachineLemmas.RegisterOpAdvancesPc | change9/umInstructions.c:270 | opcodes 0-6 advance the PC by one when they do not fault |
| MachineLemmas.OtherOpAdvancesPc | change9/umInstructions.c:270 | opcodes 7-11 and 13 advance the PC by one when they do not fault |
| MachineLemmas.StepAdvancesPc | change9/umInstructions.c:270 | every step that does not fault and is not load program advances the PC by exactly one, modulo 2^32 |
| MachineLemmas.LoadProgramJumps | change9/umInstructions.c:253-270 | load program on a mapped segment leaves the PC at r[C], whatever r[C] is |
| MachineLemmas.DivisionByZeroFaults | change9/umInstructions.c:453-462 | a division by zero faults and leaves the state as it was |
| MachineLemmas.IterateFinishedIsFinal | change9/umInstructions.c:195 | once a run has halted or faulted, more fuel changes nothing |
| MachineLemmas.RunFinishedIsFinal | change9/umInstructions.c:195 | once a run has halted or faulted, more fuel changes nothing |
| Instructions.ConditionalMove | change9/umInstructions.c:495-500 | the register array ends holding Machine.ConditionalMove's registers |
| Instructions.Addition | change9/umInstructions.c:411-417 | the register array ends holding Machine.Addition's registers |
| Instructions.Multiplication | change9/umInstructions.c:432-438 | the register array ends holding Machine.Multiplication's registers |
| Instructions.Division | change9/umInstructions.c:453-462 | a zero divisor is reported with the array untouched; otherwise the array holds Machine.Division's registers |
| Instructions.BitwiseNand | change9/umInstructions.c:477-481 | the register array ends holding Machine.BitwiseNand's registers |
| Instructions.LoadValue | change9/umInstructions.c:333-337 | the register array ends holding Machine.LoadValue's registers |
| Instructions.ZeroSegment | change9/umInstructions.c:552-557 | the zero-filling loop gives Zeros(n) |
| Instructions.CopySegment | change9/umInstructions.c:720-728 | the copying loop gives the first n words of the source |
| VectorUM.UM.constructor | change9/umInstructions.c:97-112 | zero registers, PC 0, no segments, no unmapped IDs |
| VectorUM.UM.WriteRegister | change9/umInstructions.c:411-417 | the machine is Machine.SetRegister of the old one |
| VectorUM.UM.SetSlot | change9/umInstructions.c:565-566 | only the one slot changes, and the lengths vector stays in step |
| VectorUM.UM.AppendSlot | change9/umInstructions.c:570-571 | a new last slot, with its length beside it |
| VectorUM.UM.LoadMem | change9/umInstructions.c:127-158 | the packed image becomes a new last segment |
| VectorUM.UM.SegmentedLoad | change9/umInstructions.c:625-650 | the result is Machine.SegmentedLoad's, and a fault changes nothing |
| VectorUM.UM.SegmentedStore | change9/umInstructions.c:664-687 | the result is Machine.SegmentedStore's, and a fault changes nothing |
| VectorUM.UM.MapSegment | change9/umInstructions.c:547-574 | the result is Machine.MapSegment's, and a fault changes nothing |
| VectorUM.UM.MapAtUnmappedID | change9/umInstructions.c:560-567 | the arm that pops an unmapped ID gives Machine.MapSegment's result |
| VectorUM.UM.MapAtEnd | change9/umInstructions.c:568-573 | the arm that appends a slot gives Machine.MapSegment's result |
| VectorUM.UM.UnmapSegment | change9/umInstructions.c:589-611 | the result is Machine.UnmapSegment's, and a fault changes nothing |
| VectorUM.UM.Output | change9/umInstructions.c:387-396 | the result is Machine.Output's, and a fault changes nothing |
| VectorUM.UM.Input | change9/umInstructions.c:515-531 | the machine is Machine.Input of the old one |
| VectorUM.UM.LoadProgram | change9/umInstructions.c:703-739 | the result is Machine.LoadProgram's, and a fault changes nothing |
| VectorUM.UM.Proceed | change9/umInstructions.c:270 | without a fault the PC advances by one; a fault stops the machine as it is |
| VectorUM.UM.DispatchArithmetic | change9/umInstructions.c:217-228 | opcodes 3-5 give Machine.Dispatch's status |
| VectorUM.UM.DispatchRegisterOp | change9/umInstructions.c:203-263 | opcodes 0, 6 and 13 give Machine.Dispatch's status |
| VectorUM.UM.Conclude | change9/umInstructions.c:270 | the status reported after an arm that can fault is the Machine's |
| VectorUM.UM.DispatchSegmentAccess | change9/umInstructions.c:207-216 | opcodes 1 and 2 give Machine.Dispatch's status |
| VectorUM.UM.DispatchSegmentMapping | change9/umInstructions.c:237-244 | opcodes 8 and 9 give Machine.Dispatch's status |
| VectorUM.UM.LoadProgramArm | change9/umInstructions.c:253-259 | with the decrement of the PC and the increment that follows, the PC ends at r[C] |
| VectorUM.UM.DispatchOtherOp | change9/umInstructions.c:233-268 | halt, output, input and the invalid opcodes give Machine.Dispatch's status |
| VectorUM.UM.Dispatch | change9/umInstructions.c:202-270 | the switch followed by the PC increment gives Machine.Dispatch's status |
| VectorUM.UM.Cycle | change9/umInstructions.c:197-270 | one pass of change9's loop is Machine.Step |
| VectorUM.UM.CycleShift | change13/umInstructions.c:155-367 | one pass of change13's loop, with the shift-based decoder, is Machine.Step |
| VectorUM.UM.Pass | change9/umInstructions.c:195-271 | one pass uses one unit of fuel of the run |
| VectorUM.UM.PassShift | change13/umInstructions.c:155-368 | one pass uses one unit of fuel of the run |
| VectorUM.UM.ExecuteInstr | change9/umInstructions.c:176-315 | the outcome and final machine are Machine.Run's from the starting machine |
| VectorUM.UM.ExecuteInstrShift | change13/umInstructions.c:149-369 | the outcome and final machine are Machine.Run's from the starting machine |
| SeqUM.UM.constructor | change5/um.c:20-35 | zero registers, PC 0, no segments, no unmapped IDs |
| SeqUM.UM.LoadMem | change5/um.c:50-83 | the packed image becomes a new last segment |
| SeqUM.UM.SegmentedLoad | umInstructions.c:429-453 | the result is Machine.SegmentedLoad's, and a fault changes nothing |
| SeqUM.UM.SegmentedStore | umInstructions.c:467-489 | the result is Machine.SegmentedStore's, and a fault changes nothing |
| SeqUM.UM.MapSegment | umInstructions.c:345-377 | the result is Machine.MapSegment's (the top of unmappedID is reused first) |
| SeqUM.UM.UnmapSegment | umInstructions.c:392-415 | the result is Machine.UnmapSegment's, and a fault changes nothing |
| SeqUM.UM.Output | umInstructions.c:185-194 | the result is Machine.Output's, and a fault changes nothing |
| SeqUM.UM.Input | umInstructions.c:313-329 | the machine is Machine.Input of the old one |
| SeqUM.UM.LoadProgram | umInstructions.c:505-542 | the result is Machine.LoadProgram's, and a fault changes nothing |
| SeqUM.UM.Proceed | umInstructions.c:115 | without a fault the PC advances by one; a fault stops the machine as it is |
| SeqUM.UM.Conclude | umInstructions.c:115 | the status reported after an arm that can fault is the Machine's |
| SeqUM.UM.DispatchRegisterOp | umInstructions.c:66-108 | opcodes 0 and 3-6 and 13 give Machine.Dispatch's status |
| SeqUM.UM.DispatchMemoryOp | umInstructions.c:69-95 | opcodes 1, 2, 8 and 9 give Machine.Dispatch's status |
| SeqUM.UM.LoadProgramArm | umInstructions.c:102-105 | with the decrement of the PC and the increment that follows, the PC ends at r[C] |
| SeqUM.UM.DispatchOtherOp | umInstructions.c:87-113 | halt, output, input and the invalid opcodes give Machine.Dispatch's status |
| SeqUM.UM.Dispatch | umInstructions.c:65-115 | the switch followed by the PC increment gives Machine.Dispatch's status |
| SeqUM.UM.Cycle | umInstructions.c:59-115 | one pass of the loop is Machine.Step |
| SeqUM.UM.Pass | umInstructions.c:57-116 | one pass uses one unit of fuel of the run |
| SeqUM.UM.ExecuteInstr | umInstructions.c:53-117 | the outcome and final machine are Machine.Run's from the starting machine |
| UmLab.ToUint64 | change1/umlab.c:36-39 | the C conversion of an int to uint64_t: a negative value wraps to 2^64 plus the value |
| UmLab.ThreeRegisterPacks | change1/umlab.c:33-47 | the four Bitpack_newu calls put op in bits 28-31, A in 6-8, B in 3-5 and C in 0-2, and every other bit is zero |
| UmLab.ThreeRegisterDecodes | change1/umlab.c:33-47 | the decoder reads op, A, B and C back from that word |
| UmLab.ThreeRegister | change1/umlab.c:33-47 | it succeeds exactly when op < 16 and every register is in 0..7; the word is then op*2^28 + A*64 + B*8 + C and decodes to its arguments |
| UmLab.FieldsRebuildWord | change1/umlab.c:33-47 | a word with bits 9-27 clear is rebuilt from its decoded opcode and registers |
| UmLab.ThreeRegisterOfFields | change1/umlab.c:33-47 | re-encoding the decoded fields of such a word gives the word back |
| UmLab.LoadValWordDecodes | change1/umlab.c:49-62 | the decoder reads opcode 13, the register and the value back from the loadval word |
| UmLab.LoadValWordPacks | change1/umlab.c:49-62 | the three Bitpack_newu calls of loadval give 13*2^28 + A*2^25 + value |
| UmLab.LoadVal | change1/umlab.c:49-62 | it succeeds exactly when the register is below 8 and the value fits in 25 bits; the word then decodes to them |
| UmLab.Lv | change1/umlab.c:49-62 | the word decodes as Load Value of the register and value |
| UmLab.Halt | change1/umlab.c:67-70 | the word decodes as opcode 7 with zero registers |
| UmLab.Add | change1/umlab.c:74-77 | the word decodes as opcode 3 with A, B and C |
| UmLab.Mult | change1/umlab.c:79-82 | the word decodes as opcode 4 with A, B and C |
| UmLab.Div | change1/umlab.c:84-87 | the word decodes as opcode 5 with A, B and C |
| UmLab.NandOf | change1/umlab.c:89-92 | the word decodes as opcode 6 with A, B and C |
| UmLab.Output | change1/umlab.c:94-97 | the word decodes as opcode 10 with A = B = 0 |
| UmLab.Input | change1/umlab.c:99-102 | the word decodes as opcode 11 with A = B = 0 |
| UmLab.Map | change1/umlab.c:104-107 | the word decodes as opcode 8 with A = 0 |
| UmLab.Cmov | change1/umlab.c:109-112 | the word decodes as opcode 0 with A, B and C |
| UmLab.Unmap | change1/umlab.c:114-117 | the word decodes as opcode 9 with A = B = 0 |
| UmLab.Sload | change1/umlab.c:119-122 | the word decodes as opcode 1 with A, B and C |
| UmLab.Sstore | change1/umlab.c:124-128 | the word decodes as opcode 2 with A, B and C |
| UmLab.Loadp | change1/umlab.c:130-133 | the word decodes as opcode 12 with A = 0 |
| UmLab.SerializeSnoc | change1/umlab.c:146-157 | writing one more word adds its four bytes at the end |
| UmLab.WriteWord | change1/umlab.c:150-152 | the inner loop appends the word's four bytes, most significant first |
| UmLab.Stream.constructor | change1/umlab.c:146-157 | a new stream holds no words |
| UmLab.Stream.Append | change1/umlab.c:138-140 | the word goes at the high end of the stream |
| UmLab.Stream.WriteSequence | change1/umlab.c:146-157 | the file gains the serialization of the whole stream, the inverse of the loader's packing, and the stream ends empty |
| Scenarios.LoadValueRuns | change1/umlab.c:49-62 | a Load Value word at the PC runs as one step that sets the register and advances the PC |
| Scenarios.AdditionRuns | change1/umlab.c:74-77 | an add word at the PC runs as one step of Machine.Addition |
| Scenarios.MultiplicationRuns | change1/umlab.c:79-82 | a mult word at the PC runs as one step of Machine.Multiplication |
| Scenarios.NandRuns | change1/umlab.c:89-92 | a nand word at the PC runs as one step of Machine.BitwiseNand |
| Scenarios.OutputRuns | change1/umlab.c:94-97 | an output word with a byte in r[C] appends it and advances the PC |
| Scenarios.MapNewRuns | change1/umlab.c:104-107 | with no free IDs, a map word appends a slot of zeros and returns the old slot count |
| Scenarios.MapReusedRuns | change1/umlab.c:104-107 | with free IDs, a map word reuses the most recently freed one |
| Scenarios.UnmapRuns | change1/umlab.c:114-117 | an unmap word on a mapped non-zero ID empties it and pushes the ID |
| Scenarios.JumpRuns | change1/umlab.c:130-133 | loadp with r[B] = 0 moves the PC to r[C] and changes nothing else |
| Scenarios.HaltRuns | change1/umlab.c:67-70 | a halt word ends the run halted, with the output unchanged |
| Scenarios.BranchProgram | change1/umlab.c:453-468 | build_branch_test's eleven words |
| Scenarios.BranchShapeOf | change1/umlab.c:453-468 | the branch test has the shape the run proofs use |
| Scenarios.BranchProgramShape | change1/umlab.c:453-468 | the branch test's words decode to the instructions written in the test |
| Scenarios.BranchLoads | change1/umlab.c:455-456 | the two Load Values set r2 = 0 and r3 = 8 |
| Scenarios.BranchJumps | change1/umlab.c:457-464 | loadp with r2 = 0 jumps to word 8, over the halts |
| Scenarios.BranchPrints | change1/umlab.c:465-467 | words 8-10 print 'a' and halt |
| Scenarios.BranchShapePrintsA | change1/umlab.c:453-468 | any program of that shape halts having printed "a" |
| Scenarios.BranchPrintsA | um-lab/umlabwrite.c:75 | the branch test halts having printed exactly "a", the expected output |
| Scenarios.MapUnmapProgram | change1/umlab.c:350-369 | build_map_unmap_test's eleven words |
| Scenarios.MapUnmapShapeOf | change1/umlab.c:350-369 | the map/unmap test has the shape the run proofs use |
| Scenarios.MapUnmapProgramShape | change1/umlab.c:350-369 | the map/unmap test's words decode to the instructions written in the test |
| Scenarios.MapUnmapLoads | change1/umlab.c:353-354 | the Load Values set r7 = 48 and r2 = 10 |
| Scenarios.MapUnmapFirstMap | change1/umlab.c:355-357 | the first map returns ID 1, and 1 + 48 is printed |
| Scenarios.MapUnmapUnmaps | change1/umlab.c:360-361 | ID 1 is unmapped and pushed on the free list |
| Scenarios.MapUnmapSecondMap | change1/umlab.c:364-368 | the second map returns ID 1 again, and the test prints it and halts |
| Scenarios.MapUnmapShapePrints | change1/umlab.c:350-369 | any program of that shape halts having printed "11" |
| Scenarios.MapUnmapPrintsOneOne | um-lab/umlabwrite.c:66 | the map/unmap test halts having printed exactly "11", the expected output |
| Scenarios.NandCase | change1/umlab.c:259-263 | the five words of one NAND case |
| Scenarios.NandWrapCase | change1/umlab.c:277-283 | the seven words of the wrapping case |
| Scenarios.NandCompleteProgram | change1/umlab.c:255-284 | build_nand_complete_test's 23 words |
| Scenarios.NandCaseFields | change1/umlab.c:259-263 | a NAND case decodes to its five instructions |
| Scenarios.NandWrapCaseFields | change1/umlab.c:277-283 | the wrapping case decodes to its seven instructions |
| Scenarios.PartsOf | change1/umlab.c:255-284 | the words of the NAND test sit at offsets 1, 6, 11, 16 |
| Scenarios.NandCompleteProgramShape | change1/umlab.c:255-284 | the NAND test has the shape the run proofs use |
| Scenarios.AllOnesPlus49 | change1/umlab.c:257-262 | all ones plus 49 wraps to 48, the code of '0' |
| Scenarios.NandCaseRuns | change1/umlab.c:259-263 | a NAND case with a zero operand prints '0' |
| Scenarios.ProductWraps | change1/umlab.c:277-279 | 2^24 * 256 modulo 2^32 is 0 |
| Scenarios.NandWrapMultiplies | change1/umlab.c:277-279 | the wrapping case leaves 0 in r7 |
| Scenarios.NandWrapPrints | change1/umlab.c:280-283 | the rest of the wrapping case prints '0' and halts |
| Scenarios.NandCompleteShapePrints | change1/umlab.c:255-284 | any program of that shape halts having printed "0000" |
| Scenarios.NandCompletePrintsZeros | um-lab/umlabwrite.c:55 | the NAND test halts having printed exactly "0000", the expected output |
| Driver.LastDot | change2/driver.c:33 | strrchr: the index of the last '.', or none when there is no '.' |
| Driver.CheckCommandlineMeans | change2/driver.c:26-43 | the call is accepted exactly when there is one argument and it ends in ".um" or ".umz" |
| Driver.CheckCommandlineExamples | change2/driver.c:28-42 | "x.um.bak" is refused and "a.b.umz" accepted; a path with no '.' is refused; any argument count other than one is refused |
| Driver.RunDriver | change2/driver.c:45-59 | a refused command line produces nothing; otherwise initialize, load and execute, in that order, give the outcome and output of the abstract machine booted from the packed file |
| Driver.BranchTestFilePrintsA | change2/driver.c:45-59 | "um branch.um" is accepted, and the file build_branch_test writes loads and prints "a" |
| AsWritten.SegmentedLoadAsWritten | change9/umInstructions.c:640 | with the `>` test, an offset equal to the length gets past the guard (no result); in every other case the result is Machine.SegmentedLoad's |
| AsWritten.SegmentedStoreAsWritten | change9/umInstructions.c:680 | the same holds for segmented store |
| AsWritten.OneWordMachine | change9/umInstructions.c:625-650 | a machine whose one segment holds one word, with r0 = 0 and r1 = 1 |
| AsWritten.OffsetAtLengthGetsThrough | change13/umInstructions.c:185 | offset 1 into a one-word segment gets through the guard as written, and is refused by the model |
| AsWritten.UnmapSegmentAsWritten | change9/umInstructions.c:593-594 | unmap as written faults only on 0 or an out-of-range ID, and pushes the ID even when its slot is already empty |
| AsWritten.TwoSlotMachine | change9/umInstructions.c:589-611 | a machine with segment 1 mapped and r1 = 1 |
| AsWritten.DoubleUnmapRepeatsId | change9/umInstructions.c:593-594 | unmapping ID 1 twice as written puts it on the free list twice, so the next two maps both return ID 1; the model refuses the second unmap |
| AsWritten.StepAsWritten | change9/umInstructions.c:197-199 | as written, a PC outside segment 0 reads past its end (no result); otherwise the step is Machine.Step |
| AsWritten.RunsOffSegmentZero | change9/umInstructions.c:197-199 | a one-word program that does not halt runs off the end of segment 0 on the second fetch |
| AsWritten.Int32Of | change9/umInstructions.c:550 | a word stored in an `int`: the value in [-2^31, 2^31) equal to it modulo 2^32 |
| AsWritten.ZeroFillCountAsWritten | change9/umInstructions.c:555-557 | as written, the zero-fill loop runs r[C] times only below 2^31, and not at all above |
| AsWritten.MapSlotAsWritten | change9/umInstructions.c:550-571 | the slot map_segment records: the length stored back into the unsigned vector is r[C] itself, the zero-fill loop writes ZeroFillCountAsWritten(r[C]) words, and malloc's byte count `num_words * 4` is defined only where the `int` product does not overflow; below 2^29 words all three agree with r[C] |
| AsWritten.MapLengthGoesNegative | change9/umInstructions.c:550-571 | for r[C] = 2^31, num_words is negative, the byte count `num_words * 4` overflows `int`, no word is zeroed, and yet the recorded length is 2^31, where the model maps 2^31 zero words |
| AsWritten.ClearPass | change9/umInstructions.c:941-948 | one pass of change9's clear loop halves the capacity but never the loop's own copy of it |
| AsWritten.ClearNeverExits | change9/umInstructions.c:941-948 | from a capacity above 64, no number of passes lets the loop's test fail |
| AsWritten.ClearSpinsFrom128 | change9/umInstructions.c:941-948 | a vector of capacity 128 never leaves clear |

## Left out

- File and stream I/O: `fopen`, `stat`, `fgetc`, `fclose`, `putc` and `fprintf` are left out. The program file is passed in as its bytes, standard input as the bytes it will deliver, and standard output is a byte sequence the machine appends to.
- Allocation: `malloc`, `free` and `abort` are left out, and allocation is treated as total. The "Not enough memory!" paths are left out. The freeing in `halt`, and the final `free(um)` in `main`, do nothing to the abstract state.
- Hanson's `Seq_T`, `Bitpack_getu` and `Bitpack_newu` are not part of this model:
  - a `Seq_T` is a Dafny sequence, and the boxed lengths and IDs of umInstructions.c are `Option` values;
  - Bitpack is modelled by its contract for getting and setting a field (`Bitpack.GetField`, `Bitpack.NewU`).
- Guest programs need not terminate, so every run is bounded by `fuel`. Running out of fuel leaves the machine `Running`.
- Machine.Input: the C code faults on a character outside [-1, 255]. `fgetc` never produces one, and input here is a byte sequence, so that fault cannot happen and is not modelled.
- Machine.MapSegment: the source has no explicit check that the ID on top of the free list is in range; `vector_put` aborts instead. The model reports that abort as the fault `OutOfIndex`. The invariant shows it never happens (`MachineLemmas.MapTakesUnmappedSlot`).
- Machine.Fetch: a missing segment 0 gives the same fault as a PC outside it (see Findings).
- DynamicArray.Vector: the `int` size and capacity fields are unbounded here; a vector of 2^31 or more elements is not modelled.
- Segments are sequence values held in the vector of slots, not heap arrays reached by address. The model therefore says nothing about aliasing between segments, which the C code avoids by copying in load program.
- The `double_capacity` and `half_capacity` routines of change9 are modelled by the change8 vector class. change9 and change13 repeat them, and change13 inlines them into `addhi` and `remove_at`. The copies are the same apart from the findings on `clear` and from `remove_at`, whose change9/change13 form (change9/umInstructions.c:912-929, change13/umInstructions.c:512-545) is `DynamicArray.Vector.RemoveAtSizeBefore`; map_segment pops `unmappedID` through it.
- DynamicArray.Vector.RemoveAtSizeBefore: takes a natural index. The change9 and change13 copies do not reject i < 0, and a negative index reads outside the array (undefined behaviour), so that case is not modelled.
- The generic `vector` of segment addresses in change9 and change13 is modelled by the same class, instantiated at the slot type.
- The `build_*` routines of change1/umlab.c, apart from the three scenarios, are not modelled. The three scenarios are modelled as the word sequences they append (for example `Scenarios.BranchProgram`), not as methods appending to a `Stream`.
- um-lab/umlabwrite.c creates and removes test files. It is not part of this model beyond its table of expected outputs, which appear in the `Scenarios` lemmas.
- Driver.RunDriver requires the image to hold fewer than 2^32 words, because segment lengths are words. Below that bound it runs images of 2^29 words or more as intended, which load_mem does not (see VectorUM.UM.LoadMem).
- VectorUM.UM.LoadMem requires the image to hold fewer than 2^32 words, because segment lengths are words. load_mem keeps the word count in an `int` (change9/umInstructions.c:137, change13/umInstructions.c:110, change5/um.c:60) and allocates `num_instructions * 4` bytes (change9/umInstructions.c:139, change13/umInstructions.c:112, change5/um.c:62). From 2^29 words that byte count overflows `int` (undefined behaviour), and from 2^31 words the count is negative, so the copy loop loads nothing while the recorded length is the unsigned count. Images of 2^29 words or more are modelled as the intended load of every word, the same width drop the map_segment finding records.
- SeqUM.UM.LoadMem: the same bound and the same gap as VectorUM.UM.LoadMem. change5/um.c:60-62 keeps the count in an `int` and allocates `num_instructions * 4` bytes, and images of 2^29 words or more are modelled as the intended load.
- Header files (change11/umInstructions.h, change8/dynamicIntArray.h, change9/um.h, change6/dynamicArray.h, change5/um.h, change5/umInstructions.h) declare only. The state they describe is the one `Machine.State` and the two `UM` classes hold.
- The commented-out profiling counters in change9's `execute_instr` are not modelled.

## Findings

| source | as written | input that shows it | evidently intended | confidence | as-written member | corrected member |
|---|---|---|---|---|---|---|
| change9/umInstructions.c:640 | segmented load and store reject an offset only when `offset > length`; the same test is at change9/umInstructions.c:680, change13/umInstructions.c:185 and 211, and umInstructions.c:443 and 482 | a one-word segment 0, with r[C] = 1 for load (r[B] = 1 for store): the guard lets offset 1 through and the word past the end is read or written | `offset >= length` is refused | not executed | AsWritten.OffsetAtLengthGetsThrough | Machine.SegmentedLoad |
| change9/umInstructions.c:593-594 | unmap checks only that the ID is non-zero and below the slot count, not that the slot is mapped; the same test is at umInstructions.c:396-397 and change13/umInstructions.c:281-282 | segment 1 mapped, r1 = 1, two unmaps of r1: ID 1 is pushed twice, so two later maps both get ID 1 | unmapping an empty slot is refused, so no ID is on the free list twice | not executed | AsWritten.DoubleUnmapRepeatsId | Machine.UnmapSegment |
| change9/umInstructions.c:197-199 | the instruction is read at the PC with no check against the length of segment 0; the same is at umInstructions.c:59-60 and change13/umInstructions.c:157-158 | a program of one Load Value word: the second fetch reads past the end of segment 0 | a PC outside segment 0 stops the machine | not executed | AsWritten.RunsOffSegmentZero | Machine.Fetch |
| change9/umInstructions.c:550 | `num_words` is an `int` holding r[C]; the same is at umInstructions.c:348 and change13/umInstructions.c:252 | r[C] = 2^31: `num_words` is negative, the byte count `num_words * 4` overflows `int` (undefined behaviour), the zero-fill loop does not run, and yet the length recorded by uint32_vector_put or uint32_vector_addhi (lines 566 and 571) is 2^31 | the length is a 32-bit unsigned value, so the segment has r[C] zero words | not executed | AsWritten.MapLengthGoesNegative | Machine.MapSegment |
| change9/umInstructions.c:941-948 | `uint32_vector_clear` halves the vector's capacity in a loop whose test reads a copy that is never updated; the generic `vector_clear` at change9/umInstructions.c:1094-1101 has the same loop | a vector of capacity 128: the loop never exits | halve until the capacity is 64, then stop, as change13/umInstructions.c:557-581 does by returning from inside its loop | not executed | AsWritten.ClearSpinsFrom128 | DynamicArray.Vector.Clear |
