/**
 * The C code as written, where it differs from the behaviour the rest of
 * the model states: each member here keeps the code's own check (or lack
 * of one), and a lemma beside it names an input on which it parts from the
 * corrected definition in Machine, Instructions or DynamicArray.
 */
module AsWritten {
  import opened Wrappers
  import opened Words
  import opened Bitpack
  import opened DynamicArray
  import opened Machine

  /**
   * segmented_load as written: an offset is refused only when it is greater
   * than the segment's length, so an offset equal to the length gets past
   * the check and the word after the segment is read. That read is `None`
   * here; every other input gives what the corrected Machine.SegmentedLoad
   * gives.
   */
  function SegmentedLoadAsWritten(s: State, a: RegIndex, b: RegIndex, c: RegIndex): (r: Option<Result<State, Fault>>)
    ensures r.None? <==> Mapped(s, s.regs[b]) && s.regs[c] == |s.segs[s.regs[b]].value|
    ensures r.Some? ==> r.value == SegmentedLoad(s, a, b, c)
  {
    var id, offset := s.regs[b], s.regs[c];
    if id >= |s.segs| || s.segs[id].None? then Some(Failure(LoadUnmapped))
    else if offset > |s.segs[id].value| then Some(Failure(OffsetOutOfBounds))
    else if offset < |s.segs[id].value| then Some(Success(SetRegister(s, a, s.segs[id].value[offset])))
    else None
  }

  /**
   * segmented_store as written: the same `>` check, so a store at an offset
   * equal to the length writes the word after the segment (`None` here).
   */
  function SegmentedStoreAsWritten(s: State, a: RegIndex, b: RegIndex, c: RegIndex): (r: Option<Result<State, Fault>>)
    ensures r.None? <==> Mapped(s, s.regs[a]) && s.regs[b] == |s.segs[s.regs[a]].value|
    ensures r.Some? ==> r.value == SegmentedStore(s, a, b, c)
  {
    var id, offset := s.regs[a], s.regs[b];
    if id >= |s.segs| || s.segs[id].None? then Some(Failure(StoreUnmapped))
    else if offset > |s.segs[id].value| then Some(Failure(OffsetOutOfBounds))
    else if offset < |s.segs[id].value| then Some(Success(s.(segs := s.segs[id := Some(s.segs[id].value[offset := s.regs[c]])])))
    else None
  }

  /** A machine whose segment 0 is the single word 7, with r[1] = 1 and every other register 0. */
  function OneWordMachine(): (s: State)
    ensures s.segs == [Some([7])] && s.regs[0] == 0 && s.regs[1] == 1
  {
    State([0, 1, 0, 0, 0, 0, 0, 0], [Some([7])], [], 0, [], [])
  }

  /**
   * Loading word r[1] = 1 of segment r[0] = 0, one past the end of a
   * one-word segment: the check as written lets it through, the corrected
   * one refuses it. The same input gets past the store's check.
   */
  lemma OffsetAtLengthGetsThrough()
    ensures SegmentedLoadAsWritten(OneWordMachine(), 2, 0, 1).None?
    ensures SegmentedLoad(OneWordMachine(), 2, 0, 1) == Failure(OffsetOutOfBounds)
    ensures SegmentedStoreAsWritten(OneWordMachine(), 0, 1, 2).None?
    ensures SegmentedStore(OneWordMachine(), 0, 1, 2) == Failure(OffsetOutOfBounds)
  {
  }

  /**
   * unmap_segment as written: it refuses ID 0 and IDs past the last slot,
   * but not a slot that is already unmapped, whose ID it pushes again. On a
   * mapped slot it agrees with the corrected Machine.UnmapSegment.
   */
  function UnmapSegmentAsWritten(s: State, c: RegIndex): (r: Result<State, Fault>)
    ensures r.Failure? <==> s.regs[c] == 0 || s.regs[c] >= |s.segs|
    ensures r.Success? ==> r.value.free == s.free + [s.regs[c]] && |r.value.segs| == |s.segs|
    ensures Mapped(s, s.regs[c]) ==> r == UnmapSegment(s, c)
  {
    var id := s.regs[c];
    if id == 0 || id >= |s.segs| then Failure(BadUnmap)
    else Success(s.(segs := s.segs[id := None], free := s.free + [id]))
  }

  /** Two mapped slots, 0 and 1, and r[1] = 1. */
  function TwoSlotMachine(): (s: State)
    ensures Inv(s) && s.regs[1] == 1 && |s.segs| == 2
  {
    State([0, 1, 0, 0, 0, 0, 0, 0], [Some([]), Some([])], [], 0, [], [])
  }

  /**
   * Unmapping slot 1 twice, as written, pushes ID 1 twice, so the free list
   * no longer holds each unmapped slot once, and the next two maps both
   * hand out ID 1. The corrected unmap refuses the second unmap.
   */
  lemma DoubleUnmapRepeatsId()
    ensures var t := UnmapSegmentAsWritten(TwoSlotMachine(), 1);
      && t.Success? && UnmapSegment(t.value, 1) == Failure(BadUnmap)
      && var u := UnmapSegmentAsWritten(t.value, 1);
      && u.Success? && u.value.free == [1, 1] && !FreeListExact(u.value)
      && var m1 := MapSegment(u.value, 2, 0);
      && m1.Success? && m1.value.regs[2] == 1
      && var m2 := MapSegment(m1.value, 3, 0);
      && m2.Success? && m2.value.regs[3] == 1 && m2.value.regs[2] == 1
  {
    var t := UnmapSegmentAsWritten(TwoSlotMachine(), 1).value;
    var u := UnmapSegmentAsWritten(t, 1).value;
    assert u.free == [1, 1];
    assert u.free[0] == u.free[1];
  }

  /**
   * One pass of execute_instr's loop as written: the word at the PC is read
   * out of segment 0 without checking the PC against its length. The read
   * outside segment 0 is `None` here; otherwise it is the corrected Step.
   */
  function StepAsWritten(s: State): (r: Option<Status>)
    ensures r.None? <==> Fetch(s).None?
    ensures r.Some? ==> r.value == Step(s)
  {
    if Mapped(s, 0) && s.pc < |s.segs[0].value| then Some(Execute(s, s.segs[0].value[s.pc])) else None
  }

  /** Load Value 0 into r[0]: opcode 13 in the top four bits, every other bit zero. */
  const LOAD_ZERO: Word := 0xD000_0000

  /**
   * A program made of one Load Value and no Halt: after its one instruction
   * the PC is past segment 0, where the loop as written reads on; the
   * corrected Step stops with PcOutOfRange.
   */
  lemma RunsOffSegmentZero()
    ensures var s := Boot([LOAD_ZERO], []);
      && Step(s).Running?
      && StepAsWritten(Step(s).state).None?
      && Step(Step(s).state) == Faulted(PcOutOfRange, Step(s).state)
  {
    var s := Boot([LOAD_ZERO], []);
    assert Opcode(LOAD_ZERO) == 13;
    assert Step(s).state.pc == 1;
  }

  /** `int num_words = r[C]`: a word of 2^31 or more becomes negative as a 32-bit int. */
  function Int32Of(w: Word): (n: int)
    ensures -0x8000_0000 <= n < 0x8000_0000
    ensures (n - w) % WORD_MODULUS == 0
  {
    if w < 0x8000_0000 then w else w - WORD_MODULUS
  }

  /** How many words the zero-filling loop of map_segment writes, as written: `num_words` if positive. */
  function ZeroFillCountAsWritten(w: Word): (count: nat)
    ensures w < 0x8000_0000 ==> count == w
    ensures w >= 0x8000_0000 ==> count == 0
  {
    var n := Int32Of(w);
    if n > 0 then n else 0
  }

  /**
   * What map_segment as written leaves behind for a new segment of r[C] = `w`
   * words: the length it records (the `int` num_words converted back to
   * uint32_t by uint32_vector_put or uint32_vector_addhi), the number of
   * words the zero-filling loop writes, and the byte count `num_words * 4`
   * handed to malloc, an `int` product that is `None` where it overflows
   * (undefined in C).
   */
  datatype SlotAsWritten = SlotAsWritten(recordedLength: Word, zeroed: nat, allocBytes: Option<int>)

  function MapSlotAsWritten(w: Word): (slot: SlotAsWritten)
    ensures slot.recordedLength == w
    ensures slot.zeroed == ZeroFillCountAsWritten(w)
    ensures slot.allocBytes.Some? <==> -0x8000_0000 <= Int32Of(w) * 4 < 0x8000_0000
    ensures slot.allocBytes.Some? ==> slot.allocBytes.value == Int32Of(w) * 4
    ensures w < 0x2000_0000 ==> slot == SlotAsWritten(w, w, Some(4 * w))
  {
    var numWords := Int32Of(w);
    var bytes := numWords * 4;
    SlotAsWritten(ToWord(numWords), ZeroFillCountAsWritten(w),
                  if -0x8000_0000 <= bytes < 0x8000_0000 then Some(bytes) else None)
  }

  /**
   * r[C] = 2^31: num_words is negative, the size passed to malloc overflows,
   * the loop as written zeroes no word, and yet the length recorded for the
   * segment is 2^31; the corrected segment has 2^31 zero words.
   */
  lemma MapLengthGoesNegative()
    ensures Int32Of(0x8000_0000) < 0
    ensures MapSlotAsWritten(0x8000_0000) == SlotAsWritten(0x8000_0000, 0, None)
    ensures |Zeros(0x8000_0000)| == 0x8000_0000
  {
    assert Int32Of(0x8000_0000) == -0x8000_0000;
  }

  /** The variables of the loop in uint32_vector_clear of change9: the copy it tests and the capacity it halves. */
  datatype ClearLoop = ClearLoop(vcapacity: int, capacity: nat)

  /** One pass of the loop: uint32_vector_half_capacity, which leaves `vcapacity` as it is. */
  function ClearPass(l: ClearLoop): (next: ClearLoop)
    ensures next.vcapacity == l.vcapacity
    ensures l.capacity > INITIAL_CAPACITY ==> next.capacity < l.capacity
    ensures l.capacity <= INITIAL_CAPACITY ==> next == l
  {
    if l.capacity > INITIAL_CAPACITY then l.(capacity := l.capacity / 2) else l
  }

  /** The loop variables after `n` passes. */
  function ClearPasses(l: ClearLoop, n: nat): ClearLoop
  {
    if n == 0 then l else ClearPass(ClearPasses(l, n - 1))
  }

  /**
   * The loop as written never ends once it is entered: after any number of
   * passes its guard `vcapacity > 64` still holds, since no pass changes
   * `vcapacity`. The corrected loop is DynamicArray.Vector.Clear.
   */
  lemma {:induction false} ClearNeverExits(l: ClearLoop, n: nat)
    requires l.vcapacity > INITIAL_CAPACITY
    ensures ClearPasses(l, n).vcapacity == l.vcapacity > INITIAL_CAPACITY
  {
    if n > 0 {
      ClearNeverExits(l, n - 1);
    }
  }

  /** A vector of capacity 128: the loop as written halves it to 64 on the first pass and then spins. */
  lemma ClearSpinsFrom128(n: nat)
    ensures ClearPasses(ClearLoop(128, 128), n).vcapacity > INITIAL_CAPACITY
  {
    ClearNeverExits(ClearLoop(128, 128), n);
  }
}
