/**
 * The interpreter of umInstructions.c, whose store is kept in
 * `segmented_memory`, an address per slot (NULL once unmapped),
 * `segment_lengths`, a boxed length per slot (NULL once unmapped), and
 * `unmappedID`, the boxed IDs of unmapped slots, pushed and popped at the
 * high end. initialize_UM and load_mem of change5/um.c build the slot
 * store as a vector (change5/um.h:24, um.c:29 and 79: vector_new,
 * vector_addhi) and the other two as Hanson sequences; umInstructions.c
 * reads and writes all three as Hanson sequences (Seq_get, Seq_put,
 * Seq_addhi). Either way each is a list indexed by slot, a Dafny `seq`
 * here, and an index outside it, which Seq_get and Seq_put reject with a
 * checked runtime error, is the fault OutOfIndex.
 *
 * As in VectorUM, every routine is proved against the module Machine
 * through `Abs()`, and a faulting routine leaves the struct as it was.
 */
module SeqUM {
  import opened Wrappers
  import opened Words
  import opened Bitpack
  import opened Machine
  import Instructions
  import Loader

  /** Each slot has a boxed length beside it: its segment's length, or NULL where the slot is unmapped. */
  ghost predicate LengthsBoxed(segs: seq<Option<Segment>>, lengths: seq<Option<Word>>)
  {
    && |lengths| == |segs|
    && forall i :: 0 <= i < |segs| ==>
         && lengths[i].Some? == segs[i].Some?
         && (segs[i].Some? ==> lengths[i].value == |segs[i].value|)
  }

  class UM {
    const registers: array<Word>
    var segmentedMemory: seq<Option<Segment>>
    var segmentLengths: seq<Option<Word>>
    var unmappedID: seq<Word>
    var programCounter: Word
    var input: seq<Byte>
    var output: seq<Byte>

    ghost predicate Valid()
      reads this
    {
      registers.Length == 8 && LengthsBoxed(segmentedMemory, segmentLengths)
    }

    /** The abstract machine this struct stands for. */
    ghost function Abs(): State
      reads this, registers
      requires Valid()
    {
      State(registers[..], segmentedMemory, unmappedID, programCounter, input, output)
    }

    /** initialize_UM: zero registers, empty sequences, PC 0. */
    constructor (stdin: seq<Byte>)
      ensures Valid() && fresh(registers)
      ensures Abs() == State([0, 0, 0, 0, 0, 0, 0, 0], [], [], 0, stdin, [])
    {
      var regs := new Word[8];
      for i := 0 to 8
        invariant forall k :: 0 <= k < i ==> regs[k] == 0
      {
        regs[i] := 0;
      }
      registers := regs;
      segmentedMemory := [];
      segmentLengths := [];
      unmappedID := [];
      programCounter := 0;
      input := stdin;
      output := [];
      new;
      assert registers[..] == [0, 0, 0, 0, 0, 0, 0, 0];
    }

    /**
     * load_mem: the image, packed four bytes to a word, is added at the high
     * end of the segments, and its word count at the high end of the lengths.
     */
    method LoadMem(bytes: seq<Byte>)
      requires Valid() && |bytes| / 4 < WORD_MODULUS
      modifies this
      ensures Valid()
      ensures Abs() == old(Abs()).(segs := old(Abs()).segs + [Some(Loader.Pack(bytes))])
    {
      var numInstructions := |bytes| / 4;
      var segmentZero := Loader.PackSegment(bytes);
      segmentedMemory := segmentedMemory + [Some(segmentZero)];
      segmentLengths := segmentLengths + [Some(numInstructions)];
    }

    /** segmented_load (opcode 1), with the offset checked against the length by `>=`. */
    method SegmentedLoad(a: RegIndex, b: RegIndex, c: RegIndex) returns (fault: Option<Fault>)
      requires Valid()
      modifies registers
      ensures Valid()
      ensures AsResult(fault, Abs()) == Machine.SegmentedLoad(old(Abs()), a, b, c)
      ensures fault.Some? ==> Abs() == old(Abs())
    {
      var bv, cv := registers[b], registers[c];
      if bv >= |segmentedMemory| || segmentedMemory[bv].None? {
        return Some(LoadUnmapped);
      }
      var numInstructions := segmentLengths[bv].value;
      if cv >= numInstructions {
        return Some(OffsetOutOfBounds);
      }
      registers[a] := segmentedMemory[bv].value[cv];
      return None;
    }

    /** segmented_store (opcode 2), with the offset checked against the length by `>=`. */
    method SegmentedStore(a: RegIndex, b: RegIndex, c: RegIndex) returns (fault: Option<Fault>)
      requires Valid()
      modifies this
      ensures Valid()
      ensures AsResult(fault, Abs()) == Machine.SegmentedStore(old(Abs()), a, b, c)
      ensures fault.Some? ==> Abs() == old(Abs())
    {
      var av, bv, cv := registers[a], registers[b], registers[c];
      if av >= |segmentedMemory| || segmentedMemory[av].None? {
        return Some(StoreUnmapped);
      }
      var numInstructions := segmentLengths[av].value;
      if bv >= numInstructions {
        return Some(OffsetOutOfBounds);
      }
      segmentedMemory := segmentedMemory[av := Some(segmentedMemory[av].value[bv := cv])];
      return None;
    }

    /**
     * map_segment (opcode 8): a zero-filled segment of r[C] words, at the ID
     * taken off the high end of `unmappedID` by Seq_remhi, or added at the
     * high end of the segments; r[B] takes its ID.
     */
    method MapSegment(b: RegIndex, c: RegIndex) returns (fault: Option<Fault>)
      requires Valid()
      modifies this, registers
      ensures Valid()
      ensures AsResult(fault, Abs()) == Machine.MapSegment(old(Abs()), b, c)
      ensures fault.Some? ==> Abs() == old(Abs())
    {
      ghost var s := Abs();
      var numWords := registers[c];
      var newSegment := Instructions.ZeroSegment(numWords);
      if |unmappedID| != 0 {
        var reusableID := unmappedID[|unmappedID| - 1];
        if reusableID >= |segmentedMemory| {
          return Some(OutOfIndex);
        }
        unmappedID := unmappedID[..|unmappedID| - 1];
        segmentedMemory := segmentedMemory[reusableID := Some(newSegment)];
        segmentLengths := segmentLengths[reusableID := Some(numWords)];
        registers[b] := reusableID;
      } else {
        segmentedMemory := segmentedMemory + [Some(newSegment)];
        segmentLengths := segmentLengths + [Some(numWords)];
        registers[b] := (|segmentedMemory| - 1) % WORD_MODULUS;
      }
      assert Machine.MapSegment(s, b, c) == Success(Abs());
      return None;
    }

    /**
     * unmap_segment (opcode 9): slot r[C] and its boxed length become NULL
     * and the ID is added at the high end of `unmappedID`. Unlike the C code,
     * an ID whose slot is already NULL is rejected.
     */
    method UnmapSegment(c: RegIndex) returns (fault: Option<Fault>)
      requires Valid()
      modifies this
      ensures Valid()
      ensures AsResult(fault, Abs()) == Machine.UnmapSegment(old(Abs()), c)
      ensures fault.Some? ==> Abs() == old(Abs())
    {
      var id := registers[c];
      if id == 0 || id >= |segmentedMemory| || segmentedMemory[id].None? {
        return Some(BadUnmap);
      }
      segmentedMemory := segmentedMemory[id := None];
      segmentLengths := segmentLengths[id := None];
      unmappedID := unmappedID + [id];
      return None;
    }

    /** output (opcode 10): r[C] goes to standard output if it is a byte. */
    method Output(c: RegIndex) returns (fault: Option<Fault>)
      requires Valid()
      modifies this
      ensures Valid()
      ensures AsResult(fault, Abs()) == Machine.Output(old(Abs()), c)
      ensures fault.Some? ==> Abs() == old(Abs())
    {
      var value := registers[c];
      if value > 255 {
        return Some(OutputOutOfRange);
      }
      output := output + [value];
      return None;
    }

    /** input (opcode 11): r[C] takes the next byte of standard input, or ~0 at its end. */
    method Input(c: RegIndex)
      requires Valid()
      modifies this, registers
      ensures Valid()
      ensures Abs() == Machine.Input(old(Abs()), c)
    {
      if input == [] {
        registers[c] := ALL_ONES;
      } else {
        registers[c] := input[0];
        input := input[1..];
      }
    }

    /**
     * load_program (opcode 12): segment 0 becomes a copy of segment r[B],
     * with its length (not when r[B] is 0), and the PC becomes r[C].
     */
    method LoadProgram(b: RegIndex, c: RegIndex) returns (fault: Option<Fault>)
      requires Valid()
      modifies this
      ensures Valid()
      ensures AsResult(fault, Abs()) == Machine.LoadProgram(old(Abs()), b, c)
      ensures fault.Some? ==> Abs() == old(Abs())
    {
      ghost var s := Abs();
      var bv := registers[b];
      if bv >= |segmentedMemory| || segmentedMemory[bv].None? {
        return Some(LoadUnmapped);
      }
      if bv != 0 {
        var lengthOfSeq := segmentLengths[bv].value;
        var newSegment := Instructions.CopySegment(segmentedMemory[bv].value, lengthOfSeq);
        assert newSegment == s.segs[bv].value;
        segmentedMemory := segmentedMemory[0 := Some(newSegment)];
        segmentLengths := segmentLengths[0 := Some(lengthOfSeq)];
      }
      programCounter := registers[c];
      assert Abs() == if bv != 0 then s.(segs := s.segs[0 := s.segs[bv]], pc := s.regs[c]) else s.(pc := s.regs[c]);
      return None;
    }

    /** The `program_counter++` closing the loop body; after a fault the C code has already exited. */
    method Proceed(fault: Option<Fault>) returns (o: Outcome)
      requires Valid()
      modifies this
      ensures Valid()
      ensures fault.Some? ==> o == Stop(fault.value) && Abs() == old(Abs())
      ensures fault.None? ==> o == Next && Abs() == Advance(old(Abs()))
    {
      if fault.Some? {
        return Stop(fault.value);
      }
      programCounter := (programCounter + 1) % WORD_MODULUS;
      return Next;
    }

    /** The closing increment after an arm whose Machine result is `r`. */
    method Conclude(fault: Option<Fault>, ghost r: Result<State, Fault>, ghost s: State) returns (o: Outcome)
      requires Valid() && AsResult(fault, Abs()) == r && (fault.Some? ==> Abs() == s)
      modifies this
      ensures Valid()
      ensures Report(o, Abs()) == Continue(r, s)
    {
      o := Proceed(fault);
    }

    /** The arms that touch only the registers: opcodes 0, 3, 4, 5, 6 and 13. */
    method DispatchRegisterOp(d: Decoded) returns (o: Outcome)
      requires Valid() && d.op in {0, 3, 4, 5, 6, 13}
      modifies this, registers
      ensures Valid()
      ensures Report(o, Abs()) == Machine.Dispatch(old(Abs()), d)
    {
      ghost var s := Abs();
      var a, b, c := d.a, d.b, d.c;
      if d.op == 0 {
        Instructions.ConditionalMove(registers, a, b, c, s);
        o := Proceed(None);
      } else if d.op == 3 {
        Instructions.Addition(registers, a, b, c, s);
        o := Proceed(None);
      } else if d.op == 4 {
        Instructions.Multiplication(registers, a, b, c, s);
        o := Proceed(None);
      } else if d.op == 5 {
        var fault := Instructions.Division(registers, a, b, c, s);
        o := Conclude(fault, Machine.Division(s, a, b, c), s);
      } else if d.op == 6 {
        Instructions.BitwiseNand(registers, a, b, c, s);
        o := Proceed(None);
      } else {
        Instructions.LoadValue(registers, d.la, d.value, s);
        o := Proceed(None);
      }
    }

    /** The arms that work on the segments: opcodes 1, 2, 8 and 9. */
    method DispatchMemoryOp(d: Decoded) returns (o: Outcome)
      requires Valid() && d.op in {1, 2, 8, 9}
      modifies this, registers
      ensures Valid()
      ensures Report(o, Abs()) == Machine.Dispatch(old(Abs()), d)
    {
      ghost var s := Abs();
      var a, b, c := d.a, d.b, d.c;
      if d.op == 1 {
        var fault := SegmentedLoad(a, b, c);
        o := Conclude(fault, Machine.SegmentedLoad(s, a, b, c), s);
      } else if d.op == 2 {
        var fault := SegmentedStore(a, b, c);
        o := Conclude(fault, Machine.SegmentedStore(s, a, b, c), s);
      } else if d.op == 8 {
        var fault := MapSegment(b, c);
        o := Conclude(fault, Machine.MapSegment(s, b, c), s);
      } else {
        var fault := UnmapSegment(c);
        o := Conclude(fault, Machine.UnmapSegment(s, c), s);
      }
    }

    /**
     * The load_program arm: after load_program has set the PC to r[C] the
     * arm decrements it, so that the increment closing the loop body lands
     * on r[C] again.
     */
    method LoadProgramArm(b: RegIndex, c: RegIndex) returns (o: Outcome)
      requires Valid()
      modifies this
      ensures Valid()
      ensures Report(o, Abs()) == match Machine.LoadProgram(old(Abs()), b, c)
                                   case Success(t) => Running(t)
                                   case Failure(f) => Faulted(f, old(Abs()))
    {
      var fault := LoadProgram(b, c);
      if fault.Some? {
        return Stop(fault.value);
      }
      DecrementThenIncrement(programCounter);
      programCounter := (programCounter - 1) % WORD_MODULUS;
      o := Proceed(fault);
    }

    /** Halt (7), output (10), input (11) and the opcodes the switch has no case for. */
    method DispatchOtherOp(d: Decoded) returns (o: Outcome)
      requires Valid() && d.op !in {0, 1, 2, 3, 4, 5, 6, 8, 9, 12, 13}
      modifies this, registers
      ensures Valid()
      ensures Report(o, Abs()) == Machine.Dispatch(old(Abs()), d)
    {
      var op, c := d.op, d.c;
      var fault: Option<Fault> := None;
      if op == 7 {
        // halt: the C code releases the segments and the three sequences here.
      } else if op == 10 {
        fault := Output(c);
      } else if op == 11 {
        Input(c);
      } else {
        return Stop(InvalidOpcode);
      }
      o := Proceed(fault);
      if op == 7 {
        o := Halt;
      }
    }

    /** The switch of execute_instr on an instruction with fields `d`, and the PC increment after it. */
    method Dispatch(d: Decoded) returns (o: Outcome)
      requires Valid()
      modifies this, registers
      ensures Valid()
      ensures Report(o, Abs()) == Machine.Dispatch(old(Abs()), d)
    {
      if d.op in {0, 3, 4, 5, 6, 13} {
        o := DispatchRegisterOp(d);
      } else if d.op in {1, 2, 8, 9} {
        o := DispatchMemoryOp(d);
      } else if d.op == 12 {
        o := LoadProgramArm(d.b, d.c);
      } else {
        o := DispatchOtherOp(d);
      }
    }

    /**
     * One pass of execute_instr's loop: the instruction at the PC is read
     * out of segment 0 (Seq_get of slot 0), its opcode taken with
     * Bitpack_getu(instr, 4, 28) and its register fields with get_reg_i.
     * Unlike the C code, a PC outside segment 0 stops the machine.
     */
    method Cycle() returns (o: Outcome)
      requires Valid()
      modifies this, registers
      ensures Valid()
      ensures Report(o, Abs()) == Step(old(Abs()))
    {
      if |segmentedMemory| == 0 || segmentedMemory[0].None? || programCounter >= |segmentedMemory[0].value| {
        return Stop(PcOutOfRange);
      }
      var instr := segmentedMemory[0].value[programCounter];
      o := Dispatch(Decode(instr));
    }

    /** One pass of the loop of a run with `fuel` instructions left. */
    method Pass(fuel: nat) returns (o: Outcome)
      requires Valid() && fuel > 0
      modifies this, registers
      ensures Valid()
      ensures o == Next ==> Run(old(Abs()), fuel) == Run(Abs(), fuel - 1)
      ensures o != Next ==> Run(old(Abs()), fuel) == Report(o, Abs())
    {
      RunUnfold(Abs(), fuel);
      o := Cycle();
    }

    /**
     * execute_instr: passes of the loop until halt, for at most `fuel`
     * instructions; a fault stops it where the C code would exit.
     */
    method ExecuteInstr(fuel: nat) returns (o: Outcome)
      requires Valid()
      modifies this, registers
      ensures Valid()
      ensures Report(o, Abs()) == Run(old(Abs()), fuel)
    {
      ghost var start := Abs();
      var remaining := fuel;
      o := Next;
      while remaining > 0
        invariant Valid()
        invariant o == Next && Run(start, fuel) == Run(Abs(), remaining)
        decreases remaining
      {
        o := Pass(remaining);
        if o != Next {
          return;
        }
        remaining := remaining - 1;
      }
      assert Run(Abs(), 0) == Running(Abs());
    }
  }
}
