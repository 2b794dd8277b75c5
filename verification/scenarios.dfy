/**
 * Three of the unit tests of change1/umlab.c, run on the abstract machine:
 * the instruction words each build_* function appends, and the output the
 * test table of um-lab/umlabwrite.c expects when the machine runs them.
 *
 * Each run is taken apart one instruction at a time. A lemma per
 * instruction kind says what one step does to a state whose next word
 * decodes to that instruction; the programs are described by the fields
 * their words decode to, and the runs are put together from those steps.
 */
module Scenarios {
  import opened Wrappers
  import opened Words
  import opened Machine
  import MachineLemmas
  import UmLab

  // ---------------------------------------------------------------------
  // One step of each instruction kind the scenarios use.

  /** Word `w` is Load Value of `v` into register `a`. */
  predicate IsLoadValue(w: Word, a: RegIndex, v: Word)
  {
    var d := Decode(w);
    d.op == UmLab.LV && d.la == a && d.value == v
  }

  /** The next instruction of `s` is the word `w`, and the PC can still move on by one. */
  predicate NextWord(s: State, w: Word)
  {
    Fetch(s) == Some(w) && s.pc < ALL_ONES
  }

  lemma LoadValueRuns(s: State, fuel: nat, w: Word, a: RegIndex, v: Word) returns (t: State)
    requires fuel > 0 && NextWord(s, w) && IsLoadValue(w, a, v)
    ensures t == s.(regs := s.regs[a := v], pc := s.pc + 1)
    ensures Run(s, fuel) == Run(t, fuel - 1)
  {
    t := s.(regs := s.regs[a := v], pc := s.pc + 1);
    assert Step(s) == Running(t);
    RunUnfold(s, fuel);
  }

  lemma AdditionRuns(s: State, fuel: nat, w: Word, a: RegIndex, b: RegIndex, c: RegIndex) returns (t: State)
    requires fuel > 0 && NextWord(s, w) && UmLab.Encodes(w, UmLab.ADD, a, b, c)
    ensures t == s.(regs := s.regs[a := ToWord(s.regs[b] as int + s.regs[c])], pc := s.pc + 1)
    ensures Run(s, fuel) == Run(t, fuel - 1)
  {
    t := s.(regs := s.regs[a := ToWord(s.regs[b] as int + s.regs[c])], pc := s.pc + 1);
    assert Step(s) == Running(t);
    RunUnfold(s, fuel);
  }

  lemma MultiplicationRuns(s: State, fuel: nat, w: Word, a: RegIndex, b: RegIndex, c: RegIndex) returns (t: State)
    requires fuel > 0 && NextWord(s, w) && UmLab.Encodes(w, UmLab.MUL, a, b, c)
    ensures t == s.(regs := s.regs[a := ToWord(s.regs[b] as int * s.regs[c])], pc := s.pc + 1)
    ensures Run(s, fuel) == Run(t, fuel - 1)
  {
    t := s.(regs := s.regs[a := ToWord(s.regs[b] as int * s.regs[c])], pc := s.pc + 1);
    assert Step(s) == Running(t);
    RunUnfold(s, fuel);
  }

  lemma NandRuns(s: State, fuel: nat, w: Word, a: RegIndex, b: RegIndex, c: RegIndex) returns (t: State)
    requires fuel > 0 && NextWord(s, w) && UmLab.Encodes(w, UmLab.NAND, a, b, c)
    ensures t == s.(regs := s.regs[a := Nand(s.regs[b], s.regs[c])], pc := s.pc + 1)
    ensures Run(s, fuel) == Run(t, fuel - 1)
  {
    t := s.(regs := s.regs[a := Nand(s.regs[b], s.regs[c])], pc := s.pc + 1);
    var d := Decode(w);
    assert d.op == 6 && d.a == a && d.b == b && d.c == c;
    assert BitwiseNand(s, a, b, c) == SetRegister(s, a, Nand(s.regs[b], s.regs[c]));
    assert Dispatch(s, d) == Running(Advance(BitwiseNand(s, a, b, c)));
    assert Step(s) == Running(t);
    RunUnfold(s, fuel);
  }

  lemma OutputRuns(s: State, fuel: nat, w: Word, c: RegIndex) returns (t: State)
    requires fuel > 0 && NextWord(s, w) && UmLab.Encodes(w, UmLab.OUT, 0, 0, c) && s.regs[c] <= 255
    ensures t == s.(output := s.output + [s.regs[c] as Byte], pc := s.pc + 1)
    ensures Run(s, fuel) == Run(t, fuel - 1)
  {
    t := s.(output := s.output + [s.regs[c] as Byte], pc := s.pc + 1);
    assert Step(s) == Running(t);
    RunUnfold(s, fuel);
  }

  /** Map with an empty free list: a new last slot, whose index r[B] takes. */
  lemma MapNewRuns(s: State, fuel: nat, w: Word, b: RegIndex, c: RegIndex) returns (t: State)
    requires fuel > 0 && NextWord(s, w) && UmLab.Encodes(w, UmLab.ACTIVATE, 0, b, c)
    requires s.free == [] && |s.segs| < WORD_MODULUS
    ensures t == s.(segs := s.segs + [Some(Zeros(s.regs[c]))], regs := s.regs[b := |s.segs|], pc := s.pc + 1)
    ensures Run(s, fuel) == Run(t, fuel - 1)
  {
    t := s.(segs := s.segs + [Some(Zeros(s.regs[c]))], regs := s.regs[b := |s.segs|], pc := s.pc + 1);
    assert Step(s) == Running(t);
    RunUnfold(s, fuel);
  }

  /** Map with a non-empty free list: the slot on top of it is reused, and r[B] takes its ID. */
  lemma MapReusedRuns(s: State, fuel: nat, w: Word, b: RegIndex, c: RegIndex) returns (t: State)
    requires fuel > 0 && NextWord(s, w) && UmLab.Encodes(w, UmLab.ACTIVATE, 0, b, c)
    requires |s.free| > 0 && s.free[|s.free| - 1] as int < |s.segs|
    ensures var id := s.free[|s.free| - 1];
      t == s.(segs := s.segs[id := Some(Zeros(s.regs[c]))], free := s.free[..|s.free| - 1],
              regs := s.regs[b := id], pc := s.pc + 1)
    ensures Run(s, fuel) == Run(t, fuel - 1)
  {
    var id := s.free[|s.free| - 1];
    t := s.(segs := s.segs[id := Some(Zeros(s.regs[c]))], free := s.free[..|s.free| - 1],
            regs := s.regs[b := id], pc := s.pc + 1);
    assert Step(s) == Running(t);
    RunUnfold(s, fuel);
  }

  lemma UnmapRuns(s: State, fuel: nat, w: Word, c: RegIndex) returns (t: State)
    requires fuel > 0 && NextWord(s, w) && UmLab.Encodes(w, UmLab.INACTIVATE, 0, 0, c)
    requires s.regs[c] != 0 && Mapped(s, s.regs[c])
    ensures t == s.(segs := s.segs[s.regs[c] := None], free := s.free + [s.regs[c]], pc := s.pc + 1)
    ensures Run(s, fuel) == Run(t, fuel - 1)
  {
    t := s.(segs := s.segs[s.regs[c] := None], free := s.free + [s.regs[c]], pc := s.pc + 1);
    assert Step(s) == Running(t);
    RunUnfold(s, fuel);
  }

  /** Load Program of segment 0 is a jump: the store stays as it was and the PC becomes r[C]. */
  lemma JumpRuns(s: State, fuel: nat, w: Word, b: RegIndex, c: RegIndex) returns (t: State)
    requires fuel > 0 && Fetch(s) == Some(w) && UmLab.Encodes(w, UmLab.LOADP, 0, b, c) && s.regs[b] == 0
    ensures t == s.(pc := s.regs[c])
    ensures Run(s, fuel) == Run(t, fuel - 1)
  {
    t := s.(pc := s.regs[c]);
    assert Step(s) == Running(t);
    RunUnfold(s, fuel);
  }

  lemma HaltRuns(s: State, fuel: nat, w: Word)
    requires fuel > 0 && Fetch(s) == Some(w) && UmLab.Encodes(w, UmLab.HALT, 0, 0, 0)
    ensures Run(s, fuel).Halted? && Run(s, fuel).state.output == s.output
  {
    RunUnfold(s, fuel);
  }

  // ---------------------------------------------------------------------
  // build_branch_test: a jump over five halts; expected output "a".

  /** The words build_branch_test appends, in order. */
  function BranchProgram(): (p: seq<Word>)
    ensures |p| == 11
  {
    [UmLab.Lv(2, 0), UmLab.Lv(3, 8), UmLab.Loadp(2, 3),
     UmLab.Halt(), UmLab.Halt(), UmLab.Halt(), UmLab.Halt(), UmLab.Halt(),
     UmLab.Lv(1, 97), UmLab.Output(1), UmLab.Halt()]
  }

  /** The fields of the branch program's words that its run reads. */
  predicate BranchShape(p: seq<Word>)
  {
    && |p| == 11
    && IsLoadValue(p[0], 2, 0) && IsLoadValue(p[1], 3, 8) && UmLab.Encodes(p[2], UmLab.LOADP, 0, 2, 3)
    && IsLoadValue(p[8], 1, 97) && UmLab.Encodes(p[9], UmLab.OUT, 0, 0, 1)
    && UmLab.Encodes(p[10], UmLab.HALT, 0, 0, 0)
  }

  /** The branch program's words, given as the fields they decode to. */
  lemma BranchShapeOf(lv20: Word, lv38: Word, jump: Word, halt: Word, lv197: Word, out1: Word)
    requires IsLoadValue(lv20, 2, 0) && IsLoadValue(lv38, 3, 8) && UmLab.Encodes(jump, UmLab.LOADP, 0, 2, 3)
    requires UmLab.Encodes(halt, UmLab.HALT, 0, 0, 0) && IsLoadValue(lv197, 1, 97) && UmLab.Encodes(out1, UmLab.OUT, 0, 0, 1)
    ensures BranchShape([lv20, lv38, jump, halt, halt, halt, halt, halt, lv197, out1, halt])
  {
  }

  lemma BranchProgramShape()
    ensures BranchShape(BranchProgram())
  {
    BranchShapeOf(UmLab.Lv(2, 0), UmLab.Lv(3, 8), UmLab.Loadp(2, 3), UmLab.Halt(), UmLab.Lv(1, 97), UmLab.Output(1));
  }

  /** The two loads: r[2] = 0 and r[3] = 8. */
  lemma BranchLoads(p: seq<Word>, s: State, fuel: nat) returns (t: State)
    requires BranchShape(p) && fuel >= 2 && s.segs == [Some(p)] && s.pc == 0
    ensures Run(s, fuel) == Run(t, fuel - 2)
    ensures t.segs == [Some(p)] && t.pc == 2 && t.regs[2] == 0 && t.regs[3] == 8 && t.output == s.output
  {
    var s1 := LoadValueRuns(s, fuel, p[0], 2, 0);
    t := LoadValueRuns(s1, fuel - 1, p[1], 3, 8);
  }

  /** Load Program of segment r[2] = 0 jumps to r[3] = 8, past the halts, where r[1] takes 97. */
  lemma BranchJumps(p: seq<Word>, s: State, fuel: nat) returns (t: State)
    requires BranchShape(p) && fuel >= 2 && s.segs == [Some(p)] && s.pc == 2 && s.regs[2] == 0 && s.regs[3] == 8
    ensures Run(s, fuel) == Run(t, fuel - 2)
    ensures t.segs == [Some(p)] && t.pc == 9 && t.regs[1] == 97 && t.output == s.output
  {
    var s1 := JumpRuns(s, fuel, p[2], 2, 3);
    t := LoadValueRuns(s1, fuel - 1, p[8], 1, 97);
  }

  /** Output of r[1] = 97 and halt. */
  lemma BranchPrints(p: seq<Word>, s: State, fuel: nat)
    requires BranchShape(p) && fuel >= 2 && s.segs == [Some(p)] && s.pc == 9 && s.regs[1] == 97
    ensures Run(s, fuel).Halted? && Run(s, fuel).state.output == s.output + [97]
  {
    var s1 := OutputRuns(s, fuel, p[9], 1);
    HaltRuns(s1, fuel - 1, p[10]);
  }

  /** Booted from any program of the branch test's shape, the machine prints "a" (97) and halts. */
  lemma BranchShapePrintsA(p: seq<Word>, fuel: nat)
    requires BranchShape(p) && fuel >= 6
    ensures Run(Boot(p, []), fuel).Halted? && Run(Boot(p, []), fuel).state.output == [97]
  {
    var s2 := BranchLoads(p, Boot(p, []), fuel);
    var s4 := BranchJumps(p, s2, fuel - 2);
    BranchPrints(p, s4, fuel - 4);
  }

  /**
   * build_branch_test with the "branch" row of the test table: booted from
   * the branch program, with no input and at least six steps of fuel, the
   * machine prints "a" and halts.
   */
  lemma BranchPrintsA(fuel: nat)
    requires fuel >= 6
    ensures var r := Run(Boot(BranchProgram(), []), fuel);
      r.Halted? && r.state.output == [97]  // "a"
  {
    BranchProgramShape();
    BranchShapePrintsA(BranchProgram(), fuel);
  }

  // ---------------------------------------------------------------------
  // build_map_unmap_test: map, unmap, map again; expected output "11".

  /** The words build_map_unmap_test appends, in order. */
  function MapUnmapProgram(): (p: seq<Word>)
    ensures |p| == 11
  {
    [UmLab.Lv(7, 48), UmLab.Lv(2, 10), UmLab.Map(1, 2), UmLab.Add(1, 1, 7), UmLab.Output(1),
     UmLab.Lv(1, 1), UmLab.Unmap(1),
     UmLab.Map(1, 2), UmLab.Add(1, 1, 7), UmLab.Output(1),
     UmLab.Halt()]
  }

  /** The fields of the map/unmap program's words that its run reads. */
  predicate MapUnmapShape(p: seq<Word>)
  {
    && |p| == 11
    && IsLoadValue(p[0], 7, 48) && IsLoadValue(p[1], 2, 10)
    && UmLab.Encodes(p[2], UmLab.ACTIVATE, 0, 1, 2) && UmLab.Encodes(p[3], UmLab.ADD, 1, 1, 7)
    && UmLab.Encodes(p[4], UmLab.OUT, 0, 0, 1)
    && IsLoadValue(p[5], 1, 1) && UmLab.Encodes(p[6], UmLab.INACTIVATE, 0, 0, 1)
    && UmLab.Encodes(p[7], UmLab.ACTIVATE, 0, 1, 2) && UmLab.Encodes(p[8], UmLab.ADD, 1, 1, 7)
    && UmLab.Encodes(p[9], UmLab.OUT, 0, 0, 1)
    && UmLab.Encodes(p[10], UmLab.HALT, 0, 0, 0)
  }

  /** The map/unmap program's words, given as the fields they decode to. */
  lemma MapUnmapShapeOf(lv748: Word, lv210: Word, map12: Word, add117: Word, out1: Word,
                        lv11: Word, unmap1: Word, halt: Word)
    requires IsLoadValue(lv748, 7, 48) && IsLoadValue(lv210, 2, 10)
    requires UmLab.Encodes(map12, UmLab.ACTIVATE, 0, 1, 2) && UmLab.Encodes(add117, UmLab.ADD, 1, 1, 7)
    requires UmLab.Encodes(out1, UmLab.OUT, 0, 0, 1) && IsLoadValue(lv11, 1, 1)
    requires UmLab.Encodes(unmap1, UmLab.INACTIVATE, 0, 0, 1) && UmLab.Encodes(halt, UmLab.HALT, 0, 0, 0)
    ensures MapUnmapShape([lv748, lv210, map12, add117, out1, lv11, unmap1, map12, add117, out1, halt])
  {
  }

  lemma MapUnmapProgramShape()
    ensures MapUnmapShape(MapUnmapProgram())
  {
    MapUnmapShapeOf(UmLab.Lv(7, 48), UmLab.Lv(2, 10), UmLab.Map(1, 2), UmLab.Add(1, 1, 7), UmLab.Output(1),
                    UmLab.Lv(1, 1), UmLab.Unmap(1), UmLab.Halt());
  }

  /** The two loads: r[7] = 48 and r[2] = 10. */
  lemma MapUnmapLoads(p: seq<Word>, s: State, fuel: nat) returns (t: State)
    requires MapUnmapShape(p) && fuel >= 2 && s.segs == [Some(p)] && s.free == [] && s.pc == 0
    ensures Run(s, fuel) == Run(t, fuel - 2)
    ensures t.segs == [Some(p)] && t.free == [] && t.pc == 2 && t.regs[7] == 48 && t.regs[2] == 10
    ensures t.output == s.output
  {
    var s1 := LoadValueRuns(s, fuel, p[0], 7, 48);
    t := LoadValueRuns(s1, fuel - 1, p[1], 2, 10);
  }

  /** The first map: with no ID unmapped it takes the new slot 1, and 1 + 48 is printed as "1". */
  lemma MapUnmapFirstMap(p: seq<Word>, s: State, fuel: nat) returns (t: State)
    requires MapUnmapShape(p) && fuel >= 3 && s.segs == [Some(p)] && s.free == [] && s.pc == 2
    requires s.regs[7] == 48 && s.regs[2] == 10
    ensures Run(s, fuel) == Run(t, fuel - 3)
    ensures t.segs == [Some(p), Some(Zeros(10))] && t.free == [] && t.pc == 5
    ensures t.regs[7] == 48 && t.regs[2] == 10 && t.output == s.output + [49]
  {
    var s1 := MapNewRuns(s, fuel, p[2], 1, 2);
    var s2 := AdditionRuns(s1, fuel - 1, p[3], 1, 1, 7);
    t := OutputRuns(s2, fuel - 2, p[4], 1);
  }

  /** r[1] = 1 and segment 1 is unmapped: its ID goes on the free list. */
  lemma MapUnmapUnmaps(p: seq<Word>, s: State, fuel: nat) returns (t: State)
    requires MapUnmapShape(p) && fuel >= 2 && s.segs == [Some(p), Some(Zeros(10))] && s.free == [] && s.pc == 5
    ensures Run(s, fuel) == Run(t, fuel - 2)
    ensures t.segs == [Some(p), None] && t.free == [1] && t.pc == 7
    ensures t.regs[7] == s.regs[7] && t.regs[2] == s.regs[2] && t.output == s.output
  {
    var s1 := LoadValueRuns(s, fuel, p[5], 1, 1);
    t := UnmapRuns(s1, fuel - 1, p[6], 1);
    assert t.segs == [Some(p), None];
  }

  /** The second map reuses ID 1 from the free list, so "1" is printed again; then halt. */
  lemma MapUnmapSecondMap(p: seq<Word>, s: State, fuel: nat)
    requires MapUnmapShape(p) && fuel >= 4 && s.segs == [Some(p), None] && s.free == [1] && s.pc == 7
    requires s.regs[7] == 48 && s.regs[2] == 10
    ensures Run(s, fuel).Halted? && Run(s, fuel).state.output == s.output + [49]
  {
    var s1 := MapReusedRuns(s, fuel, p[7], 1, 2);
    assert s1.regs[1] == 1;
    var s2 := AdditionRuns(s1, fuel - 1, p[8], 1, 1, 7);
    var s3 := OutputRuns(s2, fuel - 2, p[9], 1);
    HaltRuns(s3, fuel - 3, p[10]);
  }

  /** Booted from any program of the map/unmap test's shape, the machine prints 49 twice and halts. */
  lemma MapUnmapShapePrints(p: seq<Word>, fuel: nat)
    requires MapUnmapShape(p) && fuel >= 11
    ensures Run(Boot(p, []), fuel).Halted? && Run(Boot(p, []), fuel).state.output == [49, 49]
  {
    var s2 := MapUnmapLoads(p, Boot(p, []), fuel);
    var s5 := MapUnmapFirstMap(p, s2, fuel - 2);
    var s7 := MapUnmapUnmaps(p, s5, fuel - 5);
    MapUnmapSecondMap(p, s7, fuel - 7);
  }

  /**
   * build_map_unmap_test with the "map-unmap" row of the test table: the
   * segment mapped after an unmap gets the unmapped ID back, so the
   * program prints "11" and halts, within eleven steps.
   */
  lemma MapUnmapPrintsOneOne(fuel: nat)
    requires fuel >= 11
    ensures var r := Run(Boot(MapUnmapProgram(), []), fuel);
      r.Halted? && r.state.output == [49, 49]  // "11"
  {
    MapUnmapProgramShape();
    MapUnmapShapePrints(MapUnmapProgram(), fuel);
  }

  // ---------------------------------------------------------------------
  // build_nand_complete_test: NAND with a zero operand is all ones, which
  // plus 49 wraps around to 48; expected output "0000".

  /** One case of the NAND test: x into r[1], y into r[2], their NAND into r[3], r[3] + r[4] into r[5], print r[5]. */
  function NandCase(x: Word, y: Word): (ws: seq<Word>)
    requires x < 0x200_0000 && y < 0x200_0000
    ensures |ws| == 5
  {
    [UmLab.Lv(1, x), UmLab.Lv(2, y), UmLab.NandOf(3, 1, 2), UmLab.Add(5, 3, 4), UmLab.Output(5)]
  }

  /** The last case: big * n into r[7], its NAND with itself into r[3], r[3] + r[4] into r[5], print r[5], halt. */
  function NandWrapCase(big: Word, n: Word): (ws: seq<Word>)
    requires big < 0x200_0000 && n < 0x200_0000
    ensures |ws| == 7
  {
    [UmLab.Lv(2, big), UmLab.Lv(6, n), UmLab.Mult(7, 2, 6), UmLab.NandOf(3, 7, 7),
     UmLab.Add(5, 3, 4), UmLab.Output(5), UmLab.Halt()]
  }

  /** The words build_nand_complete_test appends, in order. */
  function NandCompleteProgram(): (p: seq<Word>)
    ensures |p| == 23
  {
    [UmLab.Lv(4, 49)] + NandCase(0, 0) + NandCase(0, 5718) + NandCase(1, 0) + NandWrapCase(0x100_0000, 256)
  }

  /** The words from `k` on decode as the NAND case on x and y. */
  predicate NandCaseAt(p: seq<Word>, k: nat, x: Word, y: Word)
  {
    && k + 5 <= |p|
    && IsLoadValue(p[k], 1, x) && IsLoadValue(p[k + 1], 2, y)
    && UmLab.Encodes(p[k + 2], UmLab.NAND, 3, 1, 2) && UmLab.Encodes(p[k + 3], UmLab.ADD, 5, 3, 4)
    && UmLab.Encodes(p[k + 4], UmLab.OUT, 0, 0, 5)
  }

  /** The words from `k` on decode as the last case on big and n. */
  predicate NandWrapCaseAt(p: seq<Word>, k: nat, big: Word, n: Word)
  {
    && k + 7 <= |p|
    && IsLoadValue(p[k], 2, big) && IsLoadValue(p[k + 1], 6, n)
    && UmLab.Encodes(p[k + 2], UmLab.MUL, 7, 2, 6) && UmLab.Encodes(p[k + 3], UmLab.NAND, 3, 7, 7)
    && UmLab.Encodes(p[k + 4], UmLab.ADD, 5, 3, 4) && UmLab.Encodes(p[k + 5], UmLab.OUT, 0, 0, 5)
    && UmLab.Encodes(p[k + 6], UmLab.HALT, 0, 0, 0)
  }

  /** The fields of the NAND test's words that its run reads. */
  predicate NandCompleteShape(p: seq<Word>)
  {
    && |p| == 23
    && IsLoadValue(p[0], 4, 49)
    && NandCaseAt(p, 1, 0, 0) && NandCaseAt(p, 6, 0, 5718) && NandCaseAt(p, 11, 1, 0)
    && NandWrapCaseAt(p, 16, 0x100_0000, 256)
  }

  lemma NandCaseFields(p: seq<Word>, k: nat, x: Word, y: Word)
    requires x < 0x200_0000 && y < 0x200_0000
    requires k + 5 <= |p| && p[k..k + 5] == NandCase(x, y)
    ensures NandCaseAt(p, k, x, y)
  {
    var ws := NandCase(x, y);
    assert p[k] == ws[0] && p[k + 1] == ws[1] && p[k + 2] == ws[2] && p[k + 3] == ws[3] && p[k + 4] == ws[4];
  }

  lemma NandWrapCaseFields(p: seq<Word>, k: nat, big: Word, n: Word)
    requires big < 0x200_0000 && n < 0x200_0000
    requires k + 7 <= |p| && p[k..k + 7] == NandWrapCase(big, n)
    ensures NandWrapCaseAt(p, k, big, n)
  {
    var ws := NandWrapCase(big, n);
    assert p[k] == ws[0] && p[k + 1] == ws[1] && p[k + 2] == ws[2] && p[k + 3] == ws[3];
    assert p[k + 4] == ws[4] && p[k + 5] == ws[5] && p[k + 6] == ws[6];
  }

  /** Where each part of a five-part concatenation sits. */
  lemma PartsOf(a: seq<Word>, b: seq<Word>, c: seq<Word>, d: seq<Word>, e: seq<Word>)
    requires |a| == 1 && |b| == 5 && |c| == 5 && |d| == 5 && |e| == 7
    ensures var p := a + b + c + d + e;
      && |p| == 23 && p[0] == a[0]
      && p[1..6] == b && p[6..11] == c && p[11..16] == d && p[16..23] == e
  {
    var p := a + b + c + d + e;
    assert p[1..6] == b;
    assert p[6..11] == c;
    assert p[11..16] == d;
    assert p[16..23] == e;
  }

  lemma NandCompleteProgramShape()
    ensures NandCompleteShape(NandCompleteProgram())
  {
    var lv449, c1, c2, c3 := UmLab.Lv(4, 49), NandCase(0, 0), NandCase(0, 5718), NandCase(1, 0);
    var wrap := NandWrapCase(0x100_0000, 256);
    var p := NandCompleteProgram();
    assert p == [lv449] + c1 + c2 + c3 + wrap;
    PartsOf([lv449], c1, c2, c3, wrap);
    NandCaseFields(p, 1, 0, 0);
    NandCaseFields(p, 6, 0, 5718);
    NandCaseFields(p, 11, 1, 0);
    NandWrapCaseFields(p, 16, 0x100_0000, 256);
  }

  /** 49 added to all ones wraps around to 48, the digit "0". */
  lemma AllOnesPlus49()
    ensures ToWord(ALL_ONES + 49) == 48
  {
  }

  /** One NAND case with a zero operand: r[3] becomes all ones, and r[5] = all ones + 49 = 48 is printed. */
  lemma NandCaseRuns(p: seq<Word>, k: nat, x: Word, y: Word, s: State, fuel: nat) returns (t: State)
    requires NandCaseAt(p, k, x, y) && (x == 0 || y == 0) && |p| < ALL_ONES && fuel >= 5
    requires s.segs == [Some(p)] && s.pc == k && s.regs[4] == 49
    ensures Run(s, fuel) == Run(t, fuel - 5)
    ensures t.segs == s.segs && t.pc == k + 5 && t.regs[4] == 49 && t.output == s.output + [48]
  {
    var s1 := LoadValueRuns(s, fuel, p[k], 1, x);
    var s2 := LoadValueRuns(s1, fuel - 1, p[k + 1], 2, y);
    var s3 := NandRuns(s2, fuel - 2, p[k + 2], 3, 1, 2);
    NandWithZero(x);
    NandWithZero(y);
    assert s3.regs[3] == ALL_ONES;
    var s4 := AdditionRuns(s3, fuel - 3, p[k + 3], 5, 3, 4);
    AllOnesPlus49();
    assert s4.regs[5] == 48;
    t := OutputRuns(s4, fuel - 4, p[k + 4], 5);
  }

  /** 2^24 * 256 = 2^32 wraps around to 0. */
  lemma ProductWraps()
    ensures ToWord(0x100_0000 * 256) == 0
  {
  }

  /** r[2] = 2^24 and r[6] = 256, whose product 2^32 wraps around to 0 in r[7]. */
  lemma NandWrapMultiplies(p: seq<Word>, s: State, fuel: nat) returns (t: State)
    requires NandWrapCaseAt(p, 16, 0x100_0000, 256) && fuel >= 3 && s.segs == [Some(p)] && s.pc == 16
    ensures Run(s, fuel) == Run(t, fuel - 3)
    ensures t.segs == s.segs && t.pc == 19 && t.regs[4] == s.regs[4] && t.regs[7] == 0 && t.output == s.output
  {
    var s1 := LoadValueRuns(s, fuel, p[16], 2, 0x100_0000);
    var s2 := LoadValueRuns(s1, fuel - 1, p[17], 6, 256);
    assert s2.regs[2] == 0x100_0000 && s2.regs[6] == 256;
    ProductWraps();
    t := MultiplicationRuns(s2, fuel - 2, p[18], 7, 2, 6);
  }

  /** NAND of 0 with itself is all ones; all ones + 49 = 48 is printed and the machine halts. */
  lemma NandWrapPrints(p: seq<Word>, s: State, fuel: nat)
    requires NandWrapCaseAt(p, 16, 0x100_0000, 256) && fuel >= 4 && s.segs == [Some(p)] && s.pc == 19
    requires s.regs[4] == 49 && s.regs[7] == 0
    ensures Run(s, fuel).Halted? && Run(s, fuel).state.output == s.output + [48]
  {
    var s1 := NandRuns(s, fuel, p[19], 3, 7, 7);
    NandWithZero(0);
    var s2 := AdditionRuns(s1, fuel - 1, p[20], 5, 3, 4);
    AllOnesPlus49();
    var s3 := OutputRuns(s2, fuel - 2, p[21], 5);
    HaltRuns(s3, fuel - 3, p[22]);
  }

  /** Booted from any program of the NAND test's shape, the machine prints 48 four times and halts. */
  lemma NandCompleteShapePrints(p: seq<Word>, fuel: nat)
    requires NandCompleteShape(p) && fuel >= 23
    ensures Run(Boot(p, []), fuel).Halted? && Run(Boot(p, []), fuel).state.output == [48, 48, 48, 48]
  {
    var s1 := LoadValueRuns(Boot(p, []), fuel, p[0], 4, 49);
    var s6 := NandCaseRuns(p, 1, 0, 0, s1, fuel - 1);
    var s11 := NandCaseRuns(p, 6, 0, 5718, s6, fuel - 6);
    var s16 := NandCaseRuns(p, 11, 1, 0, s11, fuel - 11);
    var s19 := NandWrapMultiplies(p, s16, fuel - 16);
    NandWrapPrints(p, s19, fuel - 19);
  }

  /**
   * build_nand_complete_test with the "nand-complete" row of the test
   * table: every NAND the program computes has a zero operand, so each of
   * the four sums is all ones + 49 = 48 and the program prints "0000" and
   * halts, within 23 steps.
   */
  lemma NandCompletePrintsZeros(fuel: nat)
    requires fuel >= 23
    ensures var r := Run(Boot(NandCompleteProgram(), []), fuel);
      r.Halted? && r.state.output == [48, 48, 48, 48]  // "0000"
  {
    NandCompleteProgramShape();
    NandCompleteShapePrints(NandCompleteProgram(), fuel);
  }
}
