/**
 * The abstract Universal Machine that every interpreter variant carries
 * out: eight registers, a store of segment slots (mapped or unmapped), a
 * LIFO list of unmapped IDs, the program counter, the bytes still waiting
 * on standard input and the bytes written to standard output.
 *
 * Each instruction is a function of the state and its decoded register
 * fields; `Step` fetches from segment 0, decodes and dispatches as the
 * switch in execute_instr does, and `Run` repeats `Step` for at most a
 * given number of instructions.
 *
 * Where the C code is off by one or misses a check, this module states
 * the corrected behaviour (offsets must be below the segment length,
 * unmapping an unmapped slot faults, fetching outside segment 0 faults);
 * the module AsWritten keeps the code as written beside it.
 */
module Machine {
  import opened Wrappers
  import opened Arith
  import opened Words
  import opened Bitpack

  type Segment = seq<Word>

  /** The register file: always exactly eight words. */
  type Registers = r: seq<Word> | |r| == 8 witness [0, 0, 0, 0, 0, 0, 0, 0]

  datatype State = State(
    regs: Registers,
    segs: seq<Option<Segment>>,
    free: seq<Word>,
    pc: Word,
    input: seq<Byte>,
    output: seq<Byte>)

  /** The fatal conditions; each C message is given beside its fault. */
  datatype Fault =
    | InvalidOpcode      // "Invalid opcode"
    | PcOutOfRange       // no check in the C code: fetch reads beyond segment 0
    | OutOfIndex         // "Out of index!": a vector access past the vector's size aborts
    | LoadUnmapped       // "Trying to load unmapped segment"
    | StoreUnmapped      // "Trying to store in unmapped segment"
    | OffsetOutOfBounds  // "Trying to access instruction out of bounds of mapped segment"
    | DivideByZero       // "Cannot divide by zero."
    | BadUnmap           // "Can't unmap segment 0 or non-mapped segments"
    | OutputOutOfRange   // "Register c not within bounds"

  /** What one step, or a bounded run, ends in. A fault leaves the state it was raised in. */
  datatype Status =
    | Running(state: State)
    | Halted(state: State)
    | Faulted(fault: Fault, state: State)

  /** How a pass of an interpreter loop ended: go on, halt, or stop on a fault. */
  datatype Outcome = Next | Halt | Stop(fault: Fault)

  /** The status an interpreter reports when its loop pass ends in `o` with the machine in `t`. */
  function Report(o: Outcome, t: State): Status
  {
    match o
    case Next => Running(t)
    case Halt => Halted(t)
    case Stop(f) => Faulted(f, t)
  }

  /** The result an instruction routine reports: its fault if it raised one, else the new machine. */
  function AsResult(fault: Option<Fault>, t: State): Result<State, Fault>
  {
    if fault.Some? then Failure(fault.value) else Success(t)
  }

  predicate Mapped(s: State, id: int)
  {
    0 <= id < |s.segs| && s.segs[id].Some?
  }

  function Zeros(n: nat): (z: Segment)
    ensures |z| == n && forall k :: 0 <= k < n ==> z[k] == 0
  {
    seq(n, _ => 0)
  }

  /**
   * Segment 0 mapped, every segment short enough for its length to be a
   * uint32 and every ID on the free list a slot other than 0.
   */
  predicate WellFormed(s: State)
  {
    && Mapped(s, 0)
    && (forall id :: 0 <= id < |s.segs| && s.segs[id].Some? ==> |s.segs[id].value| < WORD_MODULUS)
    && (forall k :: 0 <= k < |s.free| ==> 0 < s.free[k] < |s.segs|)
  }

  /** The free list holds each unmapped slot exactly once, and nothing else. */
  predicate FreeListExact(s: State)
  {
    && (forall k :: 0 <= k < |s.free| ==> 0 <= s.free[k] < |s.segs| && s.segs[s.free[k]].None?)
    && (forall k, l :: 0 <= k < l < |s.free| ==> s.free[k] != s.free[l])
    && (forall id :: 0 <= id < |s.segs| && s.segs[id].None? ==> id in s.free)
  }

  predicate Inv(s: State)
  {
    WellFormed(s) && FreeListExact(s)
  }

  /** `t` is `s` with at most register `a` changed. */
  predicate OnlyRegisterChanged(s: State, t: State, a: RegIndex)
  {
    && (forall i :: 0 <= i < 8 && i != a ==> t.regs[i] == s.regs[i])
    && t.segs == s.segs && t.free == s.free && t.pc == s.pc
    && t.input == s.input && t.output == s.output
  }

  /** `t` is `s` with at most the segment store and the free list changed. */
  predicate OnlyMemoryChanged(s: State, t: State)
  {
    t.regs == s.regs && t.pc == s.pc && t.input == s.input && t.output == s.output
  }

  function SetRegister(s: State, a: RegIndex, v: Word): (t: State)
    ensures OnlyRegisterChanged(s, t, a) && t.regs[a] == v
  {
    s.(regs := s.regs[a := v])
  }

  /** Opcode 0: r[A] takes r[B] when r[C] is not zero; no other register changes. */
  function ConditionalMove(s: State, a: RegIndex, b: RegIndex, c: RegIndex): (t: State)
    ensures OnlyRegisterChanged(s, t, a)
    ensures s.regs[c] != 0 ==> t.regs[a] == s.regs[b]
    ensures s.regs[c] == 0 ==> t == s
  {
    if s.regs[c] != 0 then SetRegister(s, a, s.regs[b]) else s
  }

  /** Opcode 1: r[A] takes word r[C] of segment r[B], which must be mapped and that long. */
  function SegmentedLoad(s: State, a: RegIndex, b: RegIndex, c: RegIndex): (r: Result<State, Fault>)
    ensures r == Failure(LoadUnmapped) <==> !Mapped(s, s.regs[b])
    ensures r == Failure(OffsetOutOfBounds) <==>
      Mapped(s, s.regs[b]) && s.regs[c] >= |s.segs[s.regs[b]].value|
    ensures r.Success? ==>
      OnlyRegisterChanged(s, r.value, a) && r.value.regs[a] == s.segs[s.regs[b]].value[s.regs[c]]
  {
    var id, offset := s.regs[b], s.regs[c];
    if id >= |s.segs| || s.segs[id].None? then Failure(LoadUnmapped)
    else if offset >= |s.segs[id].value| then Failure(OffsetOutOfBounds)
    else Success(SetRegister(s, a, s.segs[id].value[offset]))
  }

  /** Opcode 2: word r[B] of segment r[A], which must be mapped and that long, takes r[C]. */
  function SegmentedStore(s: State, a: RegIndex, b: RegIndex, c: RegIndex): (r: Result<State, Fault>)
    ensures r == Failure(StoreUnmapped) <==> !Mapped(s, s.regs[a])
    ensures r == Failure(OffsetOutOfBounds) <==>
      Mapped(s, s.regs[a]) && s.regs[b] >= |s.segs[s.regs[a]].value|
    ensures r.Success? ==>
      var t, id, offset := r.value, s.regs[a], s.regs[b];
      && OnlyMemoryChanged(s, t) && t.free == s.free
      && |t.segs| == |s.segs| && Mapped(t, id)
      && (forall j :: 0 <= j < |s.segs| && j != id ==> t.segs[j] == s.segs[j])
      && |t.segs[id].value| == |s.segs[id].value|
      && t.segs[id].value[offset] == s.regs[c]
      && (forall k :: 0 <= k < |s.segs[id].value| && k != offset ==> t.segs[id].value[k] == s.segs[id].value[k])
  {
    var id, offset := s.regs[a], s.regs[b];
    if id >= |s.segs| || s.segs[id].None? then Failure(StoreUnmapped)
    else if offset >= |s.segs[id].value| then Failure(OffsetOutOfBounds)
    else Success(s.(segs := s.segs[id := Some(s.segs[id].value[offset := s.regs[c]])]))
  }

  /** Opcode 3: r[A] takes the uint32 sum, i.e. the value congruent to r[B] + r[C] modulo 2^32. */
  function Addition(s: State, a: RegIndex, b: RegIndex, c: RegIndex): (t: State)
    ensures OnlyRegisterChanged(s, t, a)
    ensures (t.regs[a] - (s.regs[b] as int + s.regs[c])) % WORD_MODULUS == 0
  {
    SetRegister(s, a, ToWord(s.regs[b] as int + s.regs[c]))
  }

  /** Opcode 4: r[A] takes the uint32 product, congruent to r[B] * r[C] modulo 2^32. */
  function Multiplication(s: State, a: RegIndex, b: RegIndex, c: RegIndex): (t: State)
    ensures OnlyRegisterChanged(s, t, a)
    ensures (t.regs[a] - s.regs[b] as int * s.regs[c]) % WORD_MODULUS == 0
  {
    SetRegister(s, a, ToWord(s.regs[b] as int * s.regs[c]))
  }

  /** Opcode 5: r[A] takes the floor of r[B] / r[C]; a zero divisor faults before any write. */
  function Division(s: State, a: RegIndex, b: RegIndex, c: RegIndex): (r: Result<State, Fault>)
    ensures r.Failure? <==> s.regs[c] == 0
    ensures r.Failure? ==> r.error == DivideByZero
    ensures r.Success? ==>
      && OnlyRegisterChanged(s, r.value, a)
      && r.value.regs[a] as int * s.regs[c] <= s.regs[b] < (r.value.regs[a] as int + 1) * s.regs[c]
  {
    if s.regs[c] == 0 then Failure(DivideByZero)
    else
      DivFloor(s.regs[b], s.regs[c]);
      Success(SetRegister(s, a, s.regs[b] / s.regs[c]))
  }

  /** Opcode 6: r[A] takes ~(r[B] & r[C]). */
  function BitwiseNand(s: State, a: RegIndex, b: RegIndex, c: RegIndex): (t: State)
    ensures OnlyRegisterChanged(s, t, a)
    ensures t.regs[a] as bv32 == !((s.regs[b] as bv32) & (s.regs[c] as bv32))
  {
    SetRegister(s, a, Nand(s.regs[b], s.regs[c]))
  }

  /**
   * Opcode 8: a zero-filled segment of r[C] words is mapped at the ID most
   * recently unmapped, or at a new slot after the last one, and r[B] takes
   * its ID. A reused ID beyond the last slot makes the vector abort, which
   * cannot happen in a well-formed state.
   */
  function MapSegment(s: State, b: RegIndex, c: RegIndex): (r: Result<State, Fault>)
    ensures r.Failure? <==> |s.free| > 0 && s.free[|s.free| - 1] as int >= |s.segs|
    ensures r.Failure? ==> r.error == OutOfIndex
    ensures r.Success? ==>
      var t := r.value;
      && (forall i :: 0 <= i < 8 && i != b ==> t.regs[i] == s.regs[i])
      && t.pc == s.pc && t.input == s.input && t.output == s.output
      && (|s.free| > 0 ==>
            t.regs[b] == s.free[|s.free| - 1] && t.free == s.free[..|s.free| - 1] && |t.segs| == |s.segs|)
      && (|s.free| == 0 ==>
            t.regs[b] == ToWord(|s.segs|) && t.free == [] && |t.segs| == |s.segs| + 1)
      && var id := if |s.free| > 0 then s.free[|s.free| - 1] as int else |s.segs|;
         && id < |t.segs| && t.segs[id] == Some(Zeros(s.regs[c]))
         && forall j :: 0 <= j < |s.segs| && j != id ==> t.segs[j] == s.segs[j]
    ensures WellFormed(s) ==> r.Success? && WellFormed(r.value)
  {
    var segment := Zeros(s.regs[c]);
    if |s.free| > 0 then
      var id := s.free[|s.free| - 1];
      if id as int >= |s.segs| then Failure(OutOfIndex)
      else
        var t := s.(segs := s.segs[id := Some(segment)], free := s.free[..|s.free| - 1]);
        Success(SetRegister(t, b, id))
    else
      var t := s.(segs := s.segs + [Some(segment)]);
      Success(SetRegister(t, b, ToWord(|t.segs| - 1)))
  }

  /**
   * Opcode 9: segment r[C] becomes unmapped and its ID is pushed on the free
   * list; segment 0, an ID past the last slot and an unmapped slot fault.
   */
  function UnmapSegment(s: State, c: RegIndex): (r: Result<State, Fault>)
    ensures r == Failure(BadUnmap) <==> s.regs[c] == 0 || !Mapped(s, s.regs[c])
    ensures r.Success? ==>
      var t, id := r.value, s.regs[c];
      && OnlyMemoryChanged(s, t)
      && |t.segs| == |s.segs| && !Mapped(t, id)
      && (forall j :: 0 <= j < |s.segs| && j != id ==> t.segs[j] == s.segs[j])
      && t.free == s.free + [id]
    ensures WellFormed(s) && r.Success? ==> WellFormed(r.value)
  {
    var id := s.regs[c];
    if id == 0 || id >= |s.segs| || s.segs[id].None? then Failure(BadUnmap)
    else Success(s.(segs := s.segs[id := None], free := s.free + [id]))
  }

  /** Opcode 10: r[C], which must fit in a byte, is written to standard output. */
  function Output(s: State, c: RegIndex): (r: Result<State, Fault>)
    ensures r == Failure(OutputOutOfRange) <==> s.regs[c] > 255
    ensures r.Success? ==>
      r.value == s.(output := r.value.output) && |r.value.output| == |s.output| + 1 &&
      r.value.output[..|s.output|] == s.output && r.value.output[|s.output|] == s.regs[c]
  {
    if s.regs[c] > 255 then Failure(OutputOutOfRange)
    else Success(s.(output := s.output + [s.regs[c]]))
  }

  /** Opcode 11: r[C] takes the next input byte, or all ones at the end of input. */
  function Input(s: State, c: RegIndex): (t: State)
    ensures |t.regs| == 8 && forall i :: 0 <= i < 8 && i != c ==> t.regs[i] == s.regs[i]
    ensures t.segs == s.segs && t.free == s.free && t.pc == s.pc && t.output == s.output
    ensures s.input == [] ==> t.regs[c] == ALL_ONES && t.input == []
    ensures s.input != [] ==> t.regs[c] == s.input[0] && [s.input[0]] + t.input == s.input
  {
    if s.input == [] then SetRegister(s, c, ALL_ONES)
    else SetRegister(s, c, s.input[0]).(input := s.input[1..])
  }

  /**
   * Opcode 12: segment 0 is replaced by a copy of segment r[B], which must
   * be mapped and which itself stays as it was, and execution continues at
   * r[C]. With r[B] = 0 the store is untouched.
   */
  function LoadProgram(s: State, b: RegIndex, c: RegIndex): (r: Result<State, Fault>)
    ensures r == Failure(LoadUnmapped) <==> !Mapped(s, s.regs[b])
    ensures r.Success? ==>
      var t := r.value;
      && t.pc == s.regs[c]
      && t.regs == s.regs && t.free == s.free && t.input == s.input && t.output == s.output
      && |t.segs| == |s.segs|
      && t.segs[0] == s.segs[s.regs[b]] && t.segs[s.regs[b]] == s.segs[s.regs[b]]
      && (forall j :: 0 < j < |s.segs| ==> t.segs[j] == s.segs[j])
    ensures r.Success? && s.regs[b] == 0 ==> r.value.segs == s.segs
    ensures WellFormed(s) && r.Success? ==> WellFormed(r.value)
  {
    var id := s.regs[b];
    if id >= |s.segs| || s.segs[id].None? then Failure(LoadUnmapped)
    else if id != 0 then Success(s.(segs := s.segs[0 := s.segs[id]], pc := s.regs[c]))
    else Success(s.(pc := s.regs[c]))
  }

  /** Opcode 13: register `a` takes the 25-bit immediate `v`. */
  function LoadValue(s: State, a: RegIndex, v: Word): (t: State)
    ensures OnlyRegisterChanged(s, t, a) && t.regs[a] == v
  {
    SetRegister(s, a, v)
  }

  function Advance(s: State): State
  {
    s.(pc := ToWord(s.pc + 1))
  }

  /** The instruction at the program counter, if segment 0 has one there. */
  function Fetch(s: State): (w: Option<Word>)
    ensures w.Some? <==> Mapped(s, 0) && s.pc < |s.segs[0].value|
    ensures w.Some? ==> w.value == s.segs[0].value[s.pc]
  {
    if Mapped(s, 0) && s.pc < |s.segs[0].value| then Some(s.segs[0].value[s.pc]) else None
  }

  /** An instruction that can fault: continue after it, or stop in the state it faulted in. */
  function Continue(r: Result<State, Fault>, s: State): Status
  {
    match r
    case Success(t) => Running(Advance(t))
    case Failure(f) => Faulted(f, s)
  }

  /** An instruction word taken apart: the opcode, registers A, B and C, and Load Value's register and immediate. */
  datatype Decoded = Decoded(op: nat, a: RegIndex, b: RegIndex, c: RegIndex, la: RegIndex, value: Word)

  /** The fields execute_instr reads out of an instruction word before its switch. */
  function Decode(w: Word): (d: Decoded)
    ensures d.op < 16 && d.value < 0x200_0000
  {
    Decoded(Opcode(w), RegIndexOf(w, 'a'), RegIndexOf(w, 'b'), RegIndexOf(w, 'c'),
            LoadValueReg(w), LoadValueImmediate(w))
  }

  /** One pass of the switch in execute_instr on an instruction with fields `d`. */
  function Dispatch(s: State, d: Decoded): (st: Status)
    ensures st.Faulted? ==> st.state == s
    ensures WellFormed(s) && !st.Faulted? ==> WellFormed(st.state)
  {
    var op, a, b, c := d.op, d.a, d.b, d.c;
    if op == 0 then Running(Advance(ConditionalMove(s, a, b, c)))
    else if op == 1 then Continue(SegmentedLoad(s, a, b, c), s)
    else if op == 2 then Continue(SegmentedStore(s, a, b, c), s)
    else if op == 3 then Running(Advance(Addition(s, a, b, c)))
    else if op == 4 then Running(Advance(Multiplication(s, a, b, c)))
    else if op == 5 then Continue(Division(s, a, b, c), s)
    else if op == 6 then Running(Advance(BitwiseNand(s, a, b, c)))
    else if op == 7 then Halted(Advance(s))
    else if op == 8 then Continue(MapSegment(s, b, c), s)
    else if op == 9 then Continue(UnmapSegment(s, c), s)
    else if op == 10 then Continue(Output(s, c), s)
    else if op == 11 then Running(Advance(Input(s, c)))
    else if op == 12 then
      (match LoadProgram(s, b, c)
       case Success(t) => Running(t)
       case Failure(f) => Faulted(f, s))
    else if op == 13 then Running(Advance(LoadValue(s, d.la, d.value)))
    else Faulted(InvalidOpcode, s)
  }

  /** Decode the fetched instruction `w` and dispatch on it. */
  function Execute(s: State, w: Word): (st: Status)
    ensures st.Faulted? ==> st.state == s
    ensures WellFormed(s) && !st.Faulted? ==> WellFormed(st.state)
  {
    Dispatch(s, Decode(w))
  }

  /** Fetch, decode and execute one instruction. */
  function Step(s: State): (st: Status)
    ensures st.Faulted? ==> st.state == s
    ensures WellFormed(s) && !st.Faulted? ==> WellFormed(st.state)
  {
    match Fetch(s)
    case None => Faulted(PcOutOfRange, s)
    case Some(w) => Execute(s, w)
  }

  /** At most `fuel` applications of `step`, stopping at the first that halts or faults. */
  function Iterate(step: State -> Status, s: State, fuel: nat): Status
    decreases fuel, 0
  {
    if fuel == 0 then Running(s) else Proceed(step, s, fuel - 1)
  }

  /** One application of `step`, then at most `fuel` more while it keeps running. */
  function Proceed(step: State -> Status, s: State, fuel: nat): Status
    decreases fuel, 1
  {
    var next := step(s);
    if next.Running? then Iterate(step, next.state, fuel) else next
  }

  /** The fetch-decode-execute loop of execute_instr, for at most `fuel` instructions. */
  function Run(s: State, fuel: nat): Status
  {
    Iterate(Step, s, fuel)
  }

  /** A run with fuel left is one step followed by the rest of the run. */
  lemma RunUnfold(s: State, fuel: nat)
    ensures fuel == 0 ==> Run(s, fuel) == Running(s)
    ensures fuel > 0 ==> Run(s, fuel) == if Step(s).Running? then Run(Step(s).state, fuel - 1) else Step(s)
  {
    if fuel > 0 {
      assert Run(s, fuel) == Proceed(Step, s, fuel - 1);
    }
  }

  /** The machine after loading a program: registers zero, segment 0 the program, PC 0. */
  function Boot(program: Segment, input: seq<Byte>): (s: State)
    requires |program| < WORD_MODULUS
    ensures Inv(s) && s.segs == [Some(program)] && s.pc == 0 && s.free == []
    ensures forall i :: 0 <= i < 8 ==> s.regs[i] == 0
  {
    State([0, 0, 0, 0, 0, 0, 0, 0], [Some(program)], [], 0, input, [])
  }
}
