/**
 * The interpreter of change9/umInstructions.c and change13/umInstructions.c:
 * struct UM with its register array, the vector of segments, the vector of
 * segment lengths, the vector of unmapped IDs and the program counter.
 * Standard input and standard output are the two byte sequences `input`
 * and `output`.
 *
 * Every routine is proved against the module Machine through `Abs()`, the
 * abstract machine the struct stands for: a routine that cannot fault ends
 * in the Machine function's new state; one that can fault reports, through
 * `AsResult`, exactly the Machine function's result, and leaves the struct
 * as it was when it faults (the C code exits at that point).
 */
module VectorUM {
  import opened Wrappers
  import opened Words
  import opened Bitpack
  import opened DynamicArray
  import opened Machine
  import Instructions
  import Loader

  /** The lengths vector has an entry per slot: the segment's length, or 0 once unmapped. */
  ghost predicate LengthsAgree(segs: seq<Option<Segment>>, lengths: seq<Word>)
  {
    && |lengths| == |segs|
    && forall i :: 0 <= i < |segs| ==> lengths[i] == if segs[i].Some? then |segs[i].value| else 0
  }

  class UM {
    const registers: array<Word>
    const segmentedMemory: Vector<Option<Segment>>
    const segmentLengths: Vector<Word>
    const unmappedID: Vector<Word>
    var programCounter: Word
    var input: seq<Byte>
    var output: seq<Byte>

    ghost function Repr(): set<object>
      reads segmentedMemory, segmentLengths, unmappedID
    {
      {this, registers, segmentedMemory, segmentedMemory.data, segmentLengths, segmentLengths.data,
       unmappedID, unmappedID.data}
    }

    ghost predicate Valid()
      reads segmentedMemory, segmentLengths, unmappedID, segmentedMemory.data, segmentLengths.data
    {
      && registers.Length == 8
      && segmentedMemory.Valid() && segmentLengths.Valid() && unmappedID.Valid()
      && segmentLengths != unmappedID && segmentLengths.data != unmappedID.data
      && registers != segmentLengths.data && registers != unmappedID.data
      && LengthsAgree(segmentedMemory.Elements(), segmentLengths.Elements())
    }

    /** Between two states: each vector still has its array or a new one. */
    twostate predicate Kept()
      reads segmentedMemory, segmentLengths, unmappedID
    {
      && (segmentedMemory.data == old(segmentedMemory.data) || fresh(segmentedMemory.data))
      && (segmentLengths.data == old(segmentLengths.data) || fresh(segmentLengths.data))
      && (unmappedID.data == old(unmappedID.data) || fresh(unmappedID.data))
    }

    /** The abstract machine this struct stands for. */
    ghost function Abs(): State
      reads this, registers, segmentedMemory, segmentLengths, unmappedID
      reads segmentedMemory.data, segmentLengths.data, unmappedID.data
      requires Valid()
    {
      State(registers[..], segmentedMemory.Elements(), unmappedID.Elements(), programCounter, input, output)
    }

    /** initialize_UM: zero registers, no segments, no unmapped IDs, PC 0. */
    constructor (stdin: seq<Byte>)
      ensures Valid() && fresh(registers)
      ensures fresh(segmentedMemory) && fresh(segmentLengths) && fresh(unmappedID)
      ensures fresh(segmentedMemory.data) && fresh(segmentLengths.data) && fresh(unmappedID.data)
      ensures Abs() == State([0, 0, 0, 0, 0, 0, 0, 0], [], [], 0, stdin, [])
    {
      var regs := new Word[8];
      for i := 0 to 8
        invariant forall k :: 0 <= k < i ==> regs[k] == 0
      {
        regs[i] := 0;
      }
      registers := regs;
      segmentedMemory := new Vector();
      segmentLengths := new Vector();
      unmappedID := new Vector();
      programCounter := 0;
      input := stdin;
      output := [];
      new;
      assert registers[..] == [0, 0, 0, 0, 0, 0, 0, 0];
    }

    /** Register `a` takes `v`. */
    method WriteRegister(a: RegIndex, v: Word)
      requires Valid()
      modifies registers
      ensures Valid() && Abs() == Machine.SetRegister(old(Abs()), a, v)
    {
      registers[a] := v;
    }

    /** Slot `id` takes `slot`, and the lengths vector its length (0 for an empty slot). */
    method SetSlot(id: nat, slot: Option<Segment>, length: Word)
      requires Valid() && id < segmentedMemory.Length()
      requires length == if slot.Some? then |slot.value| else 0
      modifies segmentedMemory.data, segmentLengths.data
      ensures Valid()
      ensures Abs() == old(Abs()).(segs := old(Abs()).segs[id := slot])
    {
      var ok := segmentedMemory.Put(id, slot);
      ok := segmentLengths.Put(id, length);
    }

    /** A new last slot holding `slot`, with its length beside it. */
    method AppendSlot(slot: Option<Segment>, length: Word)
      requires Valid()
      requires length == if slot.Some? then |slot.value| else 0
      modifies segmentedMemory, segmentedMemory.data, segmentLengths, segmentLengths.data
      ensures Valid() && Kept()
      ensures Abs() == old(Abs()).(segs := old(Abs()).segs + [slot])
    {
      segmentedMemory.AddHi(slot);
      segmentLengths.AddHi(length);
    }

    /**
     * load_mem: the image packed into words becomes a new last segment,
     * with its length beside it.
     */
    method LoadMem(bytes: seq<Byte>)
      requires Valid() && |bytes| / 4 < WORD_MODULUS
      modifies Repr()
      ensures Valid() && Kept()
      ensures Abs() == old(Abs()).(segs := old(Abs()).segs + [Some(Loader.Pack(bytes))])
    {
      var numInstructions := |bytes| / 4;
      var segmentZero := Loader.PackSegment(bytes);
      AppendSlot(Some(segmentZero), numInstructions);
    }

    /** segmented_load (opcode 1), with the offset checked against the length by `>=`. */
    method SegmentedLoad(a: RegIndex, b: RegIndex, c: RegIndex) returns (fault: Option<Fault>)
      requires Valid()
      modifies registers
      ensures Valid()
      ensures AsResult(fault, Abs()) == Machine.SegmentedLoad(old(Abs()), a, b, c)
      ensures fault.Some? ==> Abs() == old(Abs())
    {
      var bv, cv := registers[b], registers[c];
      if bv >= segmentedMemory.Length() {
        return Some(LoadUnmapped);
      }
      var slot := segmentedMemory.Get(bv);
      if slot.value.None? {
        return Some(LoadUnmapped);
      }
      var numInstructions := segmentLengths.Get(bv);
      if cv >= numInstructions.value {
        return Some(OffsetOutOfBounds);
      }
      registers[a] := slot.value.value[cv];
      return None;
    }

    /** segmented_store (opcode 2), with the offset checked against the length by `>=`. */
    method SegmentedStore(a: RegIndex, b: RegIndex, c: RegIndex) returns (fault: Option<Fault>)
      requires Valid()
      modifies segmentedMemory.data
      ensures Valid()
      ensures AsResult(fault, Abs()) == Machine.SegmentedStore(old(Abs()), a, b, c)
      ensures fault.Some? ==> Abs() == old(Abs())
    {
      var av, bv, cv := registers[a], registers[b], registers[c];
      if av >= segmentedMemory.Length() {
        return Some(StoreUnmapped);
      }
      var slot := segmentedMemory.Get(av);
      if slot.value.None? {
        return Some(StoreUnmapped);
      }
      var numInstructions := segmentLengths.Get(av);
      if bv >= numInstructions.value {
        return Some(OffsetOutOfBounds);
      }
      var ok := segmentedMemory.Put(av, Some(slot.value.value[bv := cv]));
      return None;
    }

    /**
     * map_segment (opcode 8): a zero-filled segment of r[C] words, at the
     * most recently unmapped ID or at a new last slot.
     */
    method MapSegment(b: RegIndex, c: RegIndex) returns (fault: Option<Fault>)
      requires Valid()
      modifies Repr()
      ensures Valid() && Kept()
      ensures AsResult(fault, Abs()) == Machine.MapSegment(old(Abs()), b, c)
      ensures fault.Some? ==> Abs() == old(Abs())
    {
      var numWords := registers[c];
      var newSegment := Instructions.ZeroSegment(numWords);
      if unmappedID.Length() != 0 {
        fault := MapAtUnmappedID(b, c, newSegment);
      } else {
        MapAtEnd(b, c, newSegment);
        fault := None;
      }
    }

    /** The arm of map_segment that pops the most recently unmapped ID and maps `segment` there. */
    method MapAtUnmappedID(b: RegIndex, c: RegIndex, segment: Segment) returns (fault: Option<Fault>)
      requires Valid() && unmappedID.Length() != 0 && segment == Zeros(registers[c])
      modifies Repr()
      ensures Valid() && Kept()
      ensures AsResult(fault, Abs()) == Machine.MapSegment(old(Abs()), b, c)
      ensures fault.Some? ==> Abs() == old(Abs())
    {
      ghost var s := Abs();
      var last := unmappedID.Length() - 1;
      var top := unmappedID.Get(last);
      var reusableID := top.value;
      if reusableID >= segmentedMemory.Length() {
        return Some(OutOfIndex);
      }
      var removed := unmappedID.RemoveAtSizeBefore(last);
      assert Abs() == s.(free := s.free[..last]);
      SetSlot(reusableID, Some(segment), registers[c]);
      WriteRegister(b, reusableID);
      assert Machine.MapSegment(s, b, c) == Success(Abs());
      return None;
    }

    /** The arm of map_segment that maps `segment` at a new last slot. */
    method MapAtEnd(b: RegIndex, c: RegIndex, segment: Segment)
      requires Valid() && unmappedID.Length() == 0 && segment == Zeros(registers[c])
      modifies Repr()
      ensures Valid() && Kept()
      ensures Machine.MapSegment(old(Abs()), b, c) == Success(Abs())
    {
      AppendSlot(Some(segment), registers[c]);
      WriteRegister(b, (segmentedMemory.Length() - 1) % WORD_MODULUS);
    }

    /**
     * unmap_segment (opcode 9): slot r[C] is emptied, its length zeroed and
     * its ID pushed on the unmapped IDs. Unlike the C code, an ID whose slot
     * is already empty is rejected.
     */
    method UnmapSegment(c: RegIndex) returns (fault: Option<Fault>)
      requires Valid()
      modifies Repr()
      ensures Valid() && Kept()
      ensures AsResult(fault, Abs()) == Machine.UnmapSegment(old(Abs()), c)
      ensures fault.Some? ==> Abs() == old(Abs())
    {
      var id := registers[c];
      if id == 0 || id >= segmentedMemory.Length() {
        return Some(BadUnmap);
      }
      var slot := segmentedMemory.Get(id);
      if slot.value.None? {
        return Some(BadUnmap);
      }
      SetSlot(id, None, 0);
      unmappedID.AddHi(id);
      return None;
    }

    /** output (opcode 10): r[C] goes to standard output if it is a byte. */
    method Output(c: RegIndex) returns (fault: Option<Fault>)
      requires Valid()
      modifies this
      ensures Valid()
      ensures AsResult(fault, Abs()) == Machine.Output(old(Abs()), c)
      ensures fault.Some? ==> Abs() == old(Abs())
    {
      var value := registers[c];
      if value > 255 {
        return Some(OutputOutOfRange);
      }
      output := output + [value];
      return None;
    }

    /** input (opcode 11): r[C] takes the next byte of standard input, or ~0 at its end. */
    method Input(c: RegIndex)
      requires Valid()
      modifies this, registers
      ensures Valid()
      ensures Abs() == Machine.Input(old(Abs()), c)
    {
      if input == [] {
        registers[c] := ALL_ONES;
      } else {
        registers[c] := input[0];
        input := input[1..];
      }
    }

    /**
     * load_program (opcode 12): segment 0 becomes a copy of segment r[B]
     * (not when r[B] is 0) and the PC becomes r[C].
     */
    method LoadProgram(b: RegIndex, c: RegIndex) returns (fault: Option<Fault>)
      requires Valid()
      modifies this, segmentedMemory.data, segmentLengths.data
      ensures Valid()
      ensures AsResult(fault, Abs()) == Machine.LoadProgram(old(Abs()), b, c)
      ensures fault.Some? ==> Abs() == old(Abs())
    {
      ghost var s := Abs();
      var bv := registers[b];
      if bv >= segmentedMemory.Length() {
        return Some(LoadUnmapped);
      }
      var slot := segmentedMemory.Get(bv);
      if slot.value.None? {
        return Some(LoadUnmapped);
      }
      if bv != 0 {
        var lengthOfSeq := segmentLengths.Get(bv);
        var newSegment := Instructions.CopySegment(slot.value.value, lengthOfSeq.value);
        assert newSegment == s.segs[bv].value;
        SetSlot(0, Some(newSegment), lengthOfSeq.value);
      }
      programCounter := registers[c];
      assert Abs() == if bv != 0 then s.(segs := s.segs[0 := s.segs[bv]], pc := s.regs[c]) else s.(pc := s.regs[c]);
      return None;
    }

    /**
     * The `program_counter++` that closes the body of execute_instr's loop;
     * after a fault the C code has already exited.
     */
    method Proceed(fault: Option<Fault>) returns (o: Outcome)
      requires Valid()
      modifies this
      ensures Valid()
      ensures fault.Some? ==> o == Stop(fault.value) && Abs() == old(Abs())
      ensures fault.None? ==> o == Next && Abs() == Advance(old(Abs()))
    {
      if fault.Some? {
        return Stop(fault.value);
      }
      programCounter := (programCounter + 1) % WORD_MODULUS;
      return Next;
    }

    /** The arithmetic arms of execute_instr: addition (3), multiplication (4) and division (5). */
    method DispatchArithmetic(d: Decoded) returns (o: Outcome)
      requires Valid() && d.op in {3, 4, 5}
      modifies this, registers
      ensures Valid()
      ensures Report(o, Abs()) == Machine.Dispatch(old(Abs()), d)
    {
      ghost var s := Abs();
      var a, b, c := d.a, d.b, d.c;
      if d.op == 3 {
        Instructions.Addition(registers, a, b, c, s);
        o := Proceed(None);
      } else if d.op == 4 {
        Instructions.Multiplication(registers, a, b, c, s);
        o := Proceed(None);
      } else {
        var fault := Instructions.Division(registers, a, b, c, s);
        o := Proceed(fault);
      }
    }

    /** The other arms that touch only the registers: conditional move (0), NAND (6) and load value (13). */
    method DispatchRegisterOp(d: Decoded) returns (o: Outcome)
      requires Valid() && d.op in {0, 6, 13}
      modifies this, registers
      ensures Valid()
      ensures Report(o, Abs()) == Machine.Dispatch(old(Abs()), d)
    {
      ghost var s := Abs();
      var a, b, c := d.a, d.b, d.c;
      if d.op == 0 {
        Instructions.ConditionalMove(registers, a, b, c, s);
        o := Proceed(None);
      } else if d.op == 6 {
        Instructions.BitwiseNand(registers, a, b, c, s);
        o := Proceed(None);
      } else {
        Instructions.LoadValue(registers, d.la, d.value, s);
        o := Proceed(None);
      }
    }

    /**
     * The `program_counter++` that closes the body of execute_instr's loop,
     * after an arm that can fault and whose Machine result is `r`; after a
     * fault the C code has already exited.
     */
    method Conclude(fault: Option<Fault>, ghost r: Result<State, Fault>, ghost s: State) returns (o: Outcome)
      requires Valid() && AsResult(fault, Abs()) == r && (fault.Some? ==> Abs() == s)
      modifies this
      ensures Valid()
      ensures Report(o, Abs()) == Continue(r, s)
    {
      o := Proceed(fault);
    }

    /** The switch arms of execute_instr that read and write segment words: opcodes 1 and 2. */
    method DispatchSegmentAccess(d: Decoded) returns (o: Outcome)
      requires Valid() && d.op in {1, 2}
      modifies this, registers, segmentedMemory.data
      ensures Valid()
      ensures Report(o, Abs()) == Machine.Dispatch(old(Abs()), d)
    {
      ghost var s := Abs();
      var a, b, c := d.a, d.b, d.c;
      if d.op == 1 {
        var fault := SegmentedLoad(a, b, c);
        o := Conclude(fault, Machine.SegmentedLoad(s, a, b, c), s);
      } else {
        var fault := SegmentedStore(a, b, c);
        o := Conclude(fault, Machine.SegmentedStore(s, a, b, c), s);
      }
    }

    /** The switch arms of execute_instr that map and unmap segments: opcodes 8 and 9. */
    method DispatchSegmentMapping(d: Decoded) returns (o: Outcome)
      requires Valid() && d.op in {8, 9}
      modifies Repr()
      ensures Valid() && Kept()
      ensures Report(o, Abs()) == Machine.Dispatch(old(Abs()), d)
    {
      ghost var s := Abs();
      var b, c := d.b, d.c;
      if d.op == 8 {
        var fault := MapSegment(b, c);
        o := Conclude(fault, Machine.MapSegment(s, b, c), s);
      } else {
        var fault := UnmapSegment(c);
        o := Conclude(fault, Machine.UnmapSegment(s, c), s);
      }
    }

    /**
     * The load_program arm: the PC is set to r[C] and then decremented, so
     * that the increment closing the loop body lands on r[C].
     */
    method LoadProgramArm(b: RegIndex, c: RegIndex) returns (o: Outcome)
      requires Valid()
      modifies this, segmentedMemory.data, segmentLengths.data
      ensures Valid()
      ensures Report(o, Abs()) == match Machine.LoadProgram(old(Abs()), b, c)
                                   case Success(t) => Running(t)
                                   case Failure(f) => Faulted(f, old(Abs()))
    {
      var fault := LoadProgram(b, c);
      if fault.Some? {
        return Stop(fault.value);
      }
      DecrementThenIncrement(programCounter);
      programCounter := (programCounter - 1) % WORD_MODULUS;
      o := Proceed(fault);
    }

    /** The remaining arms: halt (7), output (10), input (11) and the invalid opcodes. */
    method DispatchOtherOp(d: Decoded) returns (o: Outcome)
      requires Valid() && d.op !in {0, 1, 2, 3, 4, 5, 6, 8, 9, 12, 13}
      modifies this, registers
      ensures Valid()
      ensures Report(o, Abs()) == Machine.Dispatch(old(Abs()), d)
    {
      var op, c := d.op, d.c;
      var fault: Option<Fault> := None;
      if op == 7 {
        // halt: the C code frees every segment and the three vectors here.
      } else if op == 10 {
        fault := Output(c);
      } else if op == 11 {
        Input(c);
      } else {
        return Stop(InvalidOpcode);
      }
      o := Proceed(fault);
      if op == 7 {
        o := Halt;
      }
    }

    /**
     * One pass of the switch of execute_instr on the fetched instruction,
     * given its opcode and fields, followed by the PC increment that closes
     * the loop body; Load Program decrements the PC first, so that the
     * increment lands on r[C].
     */
    method Dispatch(d: Decoded) returns (o: Outcome)
      requires Valid()
      modifies Repr()
      ensures Valid() && Kept()
      ensures Report(o, Abs()) == Machine.Dispatch(old(Abs()), d)
    {
      if d.op in {3, 4, 5} {
        o := DispatchArithmetic(d);
      } else if d.op in {0, 6, 13} {
        o := DispatchRegisterOp(d);
      } else if d.op in {1, 2} {
        o := DispatchSegmentAccess(d);
      } else if d.op in {8, 9} {
        o := DispatchSegmentMapping(d);
      } else if d.op == 12 {
        o := LoadProgramArm(d.b, d.c);
      } else {
        o := DispatchOtherOp(d);
      }
    }

    /**
     * One pass of execute_instr's loop in change9/umInstructions.c: the
     * instruction at the PC is read out of segment 0, its opcode taken with
     * bp_get_u(instr, 4, 28) and its register fields with get_reg_i; unlike
     * the C code, a PC outside segment 0 stops the machine.
     */
    method Cycle() returns (o: Outcome)
      requires Valid()
      modifies Repr()
      ensures Valid() && Kept()
      ensures Report(o, Abs()) == Step(old(Abs()))
    {
      var slot := segmentedMemory.Get(0);
      if slot.None? || slot.value.None? || programCounter >= |slot.value.value| {
        return Stop(PcOutOfRange);
      }
      var instr := slot.value.value[programCounter];
      var lv := LoadValueFields(instr);
      var d := Decoded(OpcodeBpGetU(instr), GetRegI(instr, 'a'), GetRegI(instr, 'b'), GetRegI(instr, 'c'), lv.0, lv.1);
      o := Dispatch(d);
    }

    /**
     * One pass of execute_instr's loop in change13/umInstructions.c: segment
     * 0 is read straight out of the vector's array, the opcode is taken by
     * shifting the instruction left 32 and right 60 bits, and the register
     * fields with the shifting get_reg_i.
     */
    method CycleShift() returns (o: Outcome)
      requires Valid()
      modifies Repr()
      ensures Valid() && Kept()
      ensures Report(o, Abs()) == Step(old(Abs()))
    {
      if segmentedMemory.Length() == 0 {
        return Stop(PcOutOfRange);
      }
      var segmentZero := segmentedMemory.data[0];
      if segmentZero.None? || programCounter >= |segmentZero.value| {
        return Stop(PcOutOfRange);
      }
      var instr := segmentZero.value[programCounter];
      var lv := LoadValueFieldsShift(instr);
      var d := Decoded(OpcodeShift(instr), GetRegIShift(instr, 'a'), GetRegIShift(instr, 'b'), GetRegIShift(instr, 'c'), lv.0, lv.1);
      o := Dispatch(d);
    }

    /** One pass of the loop of a run with `fuel` instructions left, by Cycle. */
    method Pass(fuel: nat, ghost whole: Status) returns (o: Outcome)
      requires Valid() && fuel > 0 && whole == Run(Abs(), fuel)
      modifies Repr()
      ensures Valid() && Kept()
      ensures o == Next ==> whole == Run(Abs(), fuel - 1)
      ensures o != Next ==> whole == Report(o, Abs())
    {
      RunUnfold(Abs(), fuel);
      o := Cycle();
    }

    /** One pass of the loop of a run with `fuel` instructions left, by CycleShift. */
    method PassShift(fuel: nat, ghost whole: Status) returns (o: Outcome)
      requires Valid() && fuel > 0 && whole == Run(Abs(), fuel)
      modifies Repr()
      ensures Valid() && Kept()
      ensures o == Next ==> whole == Run(Abs(), fuel - 1)
      ensures o != Next ==> whole == Report(o, Abs())
    {
      RunUnfold(Abs(), fuel);
      o := CycleShift();
    }

    /**
     * execute_instr of change9: passes of the loop until halt, for at most
     * `fuel` instructions; a fault stops it where the C code would exit.
     */
    method ExecuteInstr(fuel: nat) returns (o: Outcome)
      requires Valid()
      modifies Repr()
      ensures Valid() && Kept()
      ensures Report(o, Abs()) == Run(old(Abs()), fuel)
    {
      ghost var whole := Run(Abs(), fuel);
      var remaining := fuel;
      while remaining > 0
        invariant Valid()
        invariant segmentedMemory.data == old(segmentedMemory.data) || fresh(segmentedMemory.data)
        invariant segmentLengths.data == old(segmentLengths.data) || fresh(segmentLengths.data)
        invariant unmappedID.data == old(unmappedID.data) || fresh(unmappedID.data)
        invariant whole == Run(Abs(), remaining)
        decreases remaining
      {
        var next := Pass(remaining, whole);
        if next != Next {
          return next;
        }
        remaining := remaining - 1;
      }
      assert Run(Abs(), 0) == Running(Abs());
      o := Next;
    }

    /** execute_instr of change13, with the same loop around CycleShift. */
    method ExecuteInstrShift(fuel: nat) returns (o: Outcome)
      requires Valid()
      modifies Repr()
      ensures Valid() && Kept()
      ensures Report(o, Abs()) == Run(old(Abs()), fuel)
    {
      ghost var whole := Run(Abs(), fuel);
      var remaining := fuel;
      while remaining > 0
        invariant Valid()
        invariant segmentedMemory.data == old(segmentedMemory.data) || fresh(segmentedMemory.data)
        invariant segmentLengths.data == old(segmentLengths.data) || fresh(segmentLengths.data)
        invariant unmappedID.data == old(unmappedID.data) || fresh(unmappedID.data)
        invariant whole == Run(Abs(), remaining)
        decreases remaining
      {
        var next := PassShift(remaining, whole);
        if next != Next {
          return next;
        }
        remaining := remaining - 1;
      }
      assert Run(Abs(), 0) == Running(Abs());
      o := Next;
    }
  }
}
