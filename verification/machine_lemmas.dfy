/**
 * Properties of the abstract machine: the free-list invariant is kept by
 * every instruction, IDs are reused last-freed-first, a stored word reads
 * back, and the loop halts exactly on opcode 7, faults on opcodes 14 and
 * 15 and advances the program counter by one except after Load Program.
 */
module MachineLemmas {
  import opened Wrappers
  import opened Words
  import opened Bitpack
  import opened Machine

  /** An update that keeps the free list and which slots are mapped keeps the invariant. */
  lemma SameMappingKeepsFreeList(s: State, t: State)
    requires FreeListExact(s)
    requires |t.segs| == |s.segs| && t.free == s.free
    requires forall j :: 0 <= j < |s.segs| ==> (t.segs[j].Some? <==> s.segs[j].Some?)
    ensures FreeListExact(t)
  {
  }

  /** Map onto a reused ID keeps the free list exact: the popped ID was the only entry for its slot. */
  lemma {:induction false} MapReuseKeepsFreeList(s: State, b: RegIndex, c: RegIndex)
    requires Inv(s) && |s.free| > 0
    ensures FreeListExact(MapSegment(s, b, c).value)
  {
    var t := MapSegment(s, b, c).value;
    var last := |s.free| - 1;
    var id := s.free[last];
    forall k | 0 <= k < |t.free|
      ensures t.segs[t.free[k]].None?
    {
      assert t.free[k] == s.free[k] && s.free[k] != id;
    }
    forall j | 0 <= j < |t.segs| && t.segs[j].None?
      ensures j in t.free
    {
      assert j != id && s.segs[j].None?;
      var k :| 0 <= k < |s.free| && s.free[k] == j;
      assert t.free[k] == j;
    }
  }

  /** Map onto a new slot keeps the free list exact: with no free ID, no slot was unmapped. */
  lemma {:induction false} MapAppendKeepsFreeList(s: State, b: RegIndex, c: RegIndex)
    requires Inv(s) && |s.free| == 0
    ensures FreeListExact(MapSegment(s, b, c).value)
  {
    var t := MapSegment(s, b, c).value;
    forall j | 0 <= j < |t.segs|
      ensures t.segs[j].Some?
    {
      if j < |s.segs| {
        assert j !in s.free;
      }
    }
  }

  lemma MapKeepsFreeList(s: State, b: RegIndex, c: RegIndex)
    requires Inv(s)
    ensures FreeListExact(MapSegment(s, b, c).value)
  {
    if |s.free| > 0 {
      MapReuseKeepsFreeList(s, b, c);
    } else {
      MapAppendKeepsFreeList(s, b, c);
    }
  }

  /** Unmap keeps the free list exact: the pushed ID was mapped, so it was not on the list. */
  lemma {:induction false} UnmapKeepsFreeList(s: State, c: RegIndex)
    requires Inv(s) && UnmapSegment(s, c).Success?
    ensures FreeListExact(UnmapSegment(s, c).value)
  {
    var t, id := UnmapSegment(s, c).value, s.regs[c];
    forall k | 0 <= k < |s.free|
      ensures s.free[k] != id
    {
      assert s.segs[s.free[k]].None?;
    }
    forall k | 0 <= k < |t.free|
      ensures t.segs[t.free[k]].None?
    {
      if k < |s.free| {
        assert t.free[k] == s.free[k];
      }
    }
    forall j | 0 <= j < |t.segs| && t.segs[j].None?
      ensures j in t.free
    {
      if j != id {
        assert s.segs[j].None? && j in s.free;
      } else {
        assert t.free[|s.free|] == id;
      }
    }
  }

  /** Whatever leaves the store and the free list alone keeps the invariant. */
  lemma SameStoreKeepsInv(s: State, t: State)
    requires Inv(s) && t.segs == s.segs && t.free == s.free
    ensures Inv(t)
  {
  }

  lemma ExecuteStoreKeepsInv(s: State, w: Word)
    requires Inv(s) && Opcode(w) == 2
    ensures !Execute(s, w).Faulted? ==> Inv(Execute(s, w).state)
  {
    var r := SegmentedStore(s, RegIndexOf(w, 'a'), RegIndexOf(w, 'b'), RegIndexOf(w, 'c'));
    if r.Success? {
      SameMappingKeepsFreeList(s, r.value);
    }
  }

  lemma ExecuteMapKeepsInv(s: State, w: Word)
    requires Inv(s) && Opcode(w) == 8
    ensures !Execute(s, w).Faulted? ==> Inv(Execute(s, w).state)
  {
    MapKeepsFreeList(s, RegIndexOf(w, 'b'), RegIndexOf(w, 'c'));
  }

  lemma ExecuteUnmapKeepsInv(s: State, w: Word)
    requires Inv(s) && Opcode(w) == 9
    ensures !Execute(s, w).Faulted? ==> Inv(Execute(s, w).state)
  {
    if UnmapSegment(s, RegIndexOf(w, 'c')).Success? {
      UnmapKeepsFreeList(s, RegIndexOf(w, 'c'));
    }
  }

  lemma ExecuteLoadProgramKeepsInv(s: State, w: Word)
    requires Inv(s) && Opcode(w) == 12
    ensures !Execute(s, w).Faulted? ==> Inv(Execute(s, w).state)
  {
    var r := LoadProgram(s, RegIndexOf(w, 'b'), RegIndexOf(w, 'c'));
    if r.Success? {
      SameMappingKeepsFreeList(s, r.value);
    }
  }

  lemma ExecuteRegisterOpKeepsInv(s: State, w: Word)
    requires Inv(s) && Opcode(w) in {0, 1, 3, 4, 5, 6}
    ensures !Execute(s, w).Faulted? ==> Inv(Execute(s, w).state)
  {
  }

  lemma ExecuteOtherKeepsInv(s: State, w: Word)
    requires Inv(s) && Opcode(w) in {7, 10, 11, 13, 14, 15}
    ensures !Execute(s, w).Faulted? ==> Inv(Execute(s, w).state)
  {
  }

  /** Every instruction that does not fault keeps the free list exactly the set of unmapped slots. */
  lemma ExecuteKeepsInv(s: State, w: Word)
    requires Inv(s)
    ensures !Execute(s, w).Faulted? ==> Inv(Execute(s, w).state)
  {
    var op := Opcode(w);
    if op == 2 {
      ExecuteStoreKeepsInv(s, w);
    } else if op == 8 {
      ExecuteMapKeepsInv(s, w);
    } else if op == 9 {
      ExecuteUnmapKeepsInv(s, w);
    } else if op == 12 {
      ExecuteLoadProgramKeepsInv(s, w);
    } else if op < 7 {
      ExecuteRegisterOpKeepsInv(s, w);
    } else {
      ExecuteOtherKeepsInv(s, w);
    }
  }

  lemma StepKeepsInv(s: State)
    requires Inv(s)
    ensures !Step(s).Faulted? ==> Inv(Step(s).state)
  {
    if Fetch(s).Some? {
      ExecuteKeepsInv(s, Fetch(s).value);
    }
  }

  /** A property that every step keeps holds after any number of steps. */
  lemma {:induction false} IterateKeeps(step: State -> Status, inv: State -> bool, s: State, fuel: nat)
    requires inv(s)
    requires forall t :: inv(t) ==> inv(step(t).state)
    ensures inv(Iterate(step, s, fuel).state)
    decreases fuel
  {
    if fuel > 0 && step(s).Running? {
      IterateKeeps(step, inv, step(s).state, fuel - 1);
    }
  }

  /** However many steps run, the free list stays exactly the set of unmapped slots. */
  lemma RunKeepsInv(s: State, fuel: nat)
    requires Inv(s)
    ensures Inv(Run(s, fuel).state)
  {
    forall t | Inv(t)
      ensures Inv(Step(t).state)
    {
      StepKeepsInv(t);
    }
    IterateKeeps(Step, Inv, s, fuel);
  }

  /**
   * Map never installs its segment over a live one: the slot it uses was
   * unmapped or did not exist, and it is mapped afterwards.
   */
  lemma MapTakesUnmappedSlot(s: State, b: RegIndex, c: RegIndex)
    requires Inv(s) && (|s.free| > 0 || |s.segs| < WORD_MODULUS)
    ensures MapSegment(s, b, c).Success?
    ensures var t := MapSegment(s, b, c).value;
      !Mapped(s, t.regs[b]) && Mapped(t, t.regs[b]) && t.segs[t.regs[b]].value == Zeros(s.regs[c])
  {
    if |s.free| > 0 {
      assert s.segs[s.free[|s.free| - 1]].None?;
    }
  }

  /** LIFO reuse: a map right after an unmap hands back the ID just unmapped, as a zero-filled segment. */
  lemma UnmapThenMapReusesId(s: State, c: RegIndex, b2: RegIndex, c2: RegIndex)
    requires WellFormed(s) && UnmapSegment(s, c).Success?
    ensures MapSegment(UnmapSegment(s, c).value, b2, c2).Success?
    ensures var t := MapSegment(UnmapSegment(s, c).value, b2, c2).value;
      t.regs[b2] == s.regs[c] && Mapped(t, s.regs[c]) && t.free == s.free &&
      t.segs[s.regs[c]].value == Zeros(UnmapSegment(s, c).value.regs[c2])
  {
    var u := UnmapSegment(s, c).value;
    assert u.free[..|u.free| - 1] == s.free;
  }

  /** A word stored at (r[A], r[B]) is what a later load from that segment and offset reads. */
  lemma StoreThenLoad(s: State, a: RegIndex, b: RegIndex, c: RegIndex, a2: RegIndex, b2: RegIndex, c2: RegIndex)
    requires SegmentedStore(s, a, b, c).Success?
    requires s.regs[b2] == s.regs[a] && s.regs[c2] == s.regs[b]
    ensures var t := SegmentedStore(s, a, b, c).value;
      SegmentedLoad(t, a2, b2, c2).Success? && SegmentedLoad(t, a2, b2, c2).value.regs[a2] == s.regs[c]
  {
  }

  /** The loop ends normally exactly when the fetched opcode is 7. */
  lemma HaltsExactlyOnOpcode7(s: State)
    ensures Step(s).Halted? <==> Fetch(s).Some? && Opcode(Fetch(s).value) == 7
  {
  }

  /** Opcodes 14 and 15 are the ones that fault with "Invalid opcode". */
  lemma InvalidOpcodeFaults(s: State)
    requires Fetch(s).Some?
    ensures Step(s) == Faulted(InvalidOpcode, s) <==> Opcode(Fetch(s).value) >= 14
  {
  }

  lemma RegisterOpAdvancesPc(s: State, w: Word)
    requires Opcode(w) in {0, 1, 2, 3, 4, 5, 6}
    ensures !Execute(s, w).Faulted? ==> Execute(s, w).state.pc == ToWord(s.pc + 1)
  {
  }

  lemma OtherOpAdvancesPc(s: State, w: Word)
    requires Opcode(w) in {7, 8, 9, 10, 11, 13, 14, 15}
    ensures !Execute(s, w).Faulted? ==> Execute(s, w).state.pc == ToWord(s.pc + 1)
  {
  }

  /** Every instruction but Load Program that does not fault moves the PC on by exactly one. */
  lemma StepAdvancesPc(s: State)
    requires Fetch(s).Some? && Opcode(Fetch(s).value) != 12
    ensures !Step(s).Faulted? ==> Step(s).state.pc == ToWord(s.pc + 1)
  {
    var w := Fetch(s).value;
    if Opcode(w) < 7 {
      RegisterOpAdvancesPc(s, w);
    } else {
      OtherOpAdvancesPc(s, w);
    }
  }

  /**
   * Load Program from a mapped segment continues at r[C], with segment 0 a
   * copy of segment r[B]; no other slot changes.
   */
  lemma LoadProgramJumps(s: State)
    requires Fetch(s).Some? && Opcode(Fetch(s).value) == 12
    requires Mapped(s, s.regs[RegIndexOf(Fetch(s).value, 'b')])
    ensures var w := Fetch(s).value;
      var b, c := RegIndexOf(w, 'b'), RegIndexOf(w, 'c');
      && Step(s).Running?
      && Step(s).state.pc == s.regs[c]
      && Step(s).state.segs[0] == s.segs[s.regs[b]]
      && forall j :: 0 < j < |s.segs| ==> Step(s).state.segs[j] == s.segs[j]
  {
  }

  /** Division by zero stops the machine in the state it was in: no register is written. */
  lemma DivisionByZeroFaults(s: State)
    requires Fetch(s).Some? && Opcode(Fetch(s).value) == 5
    requires s.regs[RegIndexOf(Fetch(s).value, 'c')] == 0
    ensures Step(s) == Faulted(DivideByZero, s)
  {
  }

  /** Once an iteration has halted or faulted, more fuel does not change its outcome. */
  lemma {:induction false} IterateFinishedIsFinal(step: State -> Status, s: State, fuel: nat, more: nat)
    requires !Iterate(step, s, fuel).Running?
    ensures Iterate(step, s, fuel + more) == Iterate(step, s, fuel)
    decreases fuel
  {
    if step(s).Running? {
      IterateFinishedIsFinal(step, step(s).state, fuel - 1, more);
    }
  }

  /** A run that has halted or faulted ends the same way with any larger fuel. */
  lemma RunFinishedIsFinal(s: State, fuel: nat, more: nat)
    requires !Run(s, fuel).Running?
    ensures Run(s, fuel + more) == Run(s, fuel)
  {
    IterateFinishedIsFinal(Step, s, fuel, more);
  }
}
