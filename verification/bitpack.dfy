/**
 * Bit fields of words: the field-extraction contract (Hanson's Bitpack_getu
 * and Bitpack_newu), the shift-based extractors the interpreter variants use
 * instead, and the instruction-field decoders built on them.
 * Bit 0 is the least significant bit; a field of width w at lsb occupies
 * bits [lsb, lsb + w).
 */
module Bitpack {
  import opened Wrappers
  import opened Arith
  import opened Words

  /** Bits [lsb, lsb + width) of w, zero-extended. */
  function GetField(w: nat, width: nat, lsb: nat): (r: nat)
    ensures r < Pow2(width)
  {
    (w / Pow2(lsb)) % Pow2(width)
  }

  /** Every number splits into its bits above the field, the field, and the bits below it. */
  lemma Decompose(w: nat, width: nat, lsb: nat)
    ensures w == (w / Pow2(lsb + width)) * Pow2(lsb + width) + GetField(w, width, lsb) * Pow2(lsb) + w % Pow2(lsb)
  {
    Pow2Add(lsb, width);
    SplitThree(w, Pow2(lsb), Pow2(width));
  }

  /**
   * w with bits [lsb, lsb + width) replaced by v, all other bits kept.
   * Bitpack_newu raises an exception when v does not fit in the field.
   */
  function SetField(w: nat, width: nat, lsb: nat, v: nat): nat
    requires v < Pow2(width)
  {
    ReplaceDigit(w, Pow2(lsb), Pow2(width), v);
    w - GetField(w, width, lsb) * Pow2(lsb) + v * Pow2(lsb)
  }

  /**
   * Replacing a field puts v in it and leaves the bits below and above it
   * as they were.
   */
  lemma SetFieldSpec(w: nat, width: nat, lsb: nat, v: nat)
    requires v < Pow2(width)
    ensures GetField(SetField(w, width, lsb, v), width, lsb) == v
    ensures SetField(w, width, lsb, v) % Pow2(lsb) == w % Pow2(lsb)
    ensures SetField(w, width, lsb, v) / Pow2(lsb + width) == w / Pow2(lsb + width)
  {
    Pow2Add(lsb, width);
    ReplaceDigit(w, Pow2(lsb), Pow2(width), v);
  }

  /**
   * Bitpack_newu: w with the field replaced by v, or None where Hanson's
   * Bitpack raises Bitpack_Overflow because v does not fit in the field.
   */
  function NewU(w: nat, width: nat, lsb: nat, v: nat): (r: Option<nat>)
    requires lsb + width <= 64
    ensures r.Some? <==> v < Pow2(width)
  {
    if v < Pow2(width) then Some(SetField(w, width, lsb, v)) else None
  }

  /**
   * The value Bitpack_newu returns holds v in the field, the bits of w below
   * the field and those above it.
   */
  lemma NewUFields(w: nat, width: nat, lsb: nat, v: nat)
    requires lsb + width <= 64 && v < Pow2(width)
    ensures var r := NewU(w, width, lsb, v).value;
      && GetField(r, width, lsb) == v
      && r % Pow2(lsb) == w % Pow2(lsb)
      && r / Pow2(lsb + width) == w / Pow2(lsb + width)
  {
    assert NewU(w, width, lsb, v).value == SetField(w, width, lsb, v);
    SetFieldSpec(w, width, lsb, v);
  }

  /** Filling a field that is still all zero adds the value, shifted to the field. */
  lemma SetEmptyField(w: nat, width: nat, lsb: nat, v: nat)
    requires v < Pow2(width) && GetField(w, width, lsb) == 0
    ensures SetField(w, width, lsb, v) == w + v * Pow2(lsb)
  {
    SetFieldSpec(w, width, lsb, v);
  }

  /** Replacing a field that lies inside a 32-bit word yields a 32-bit word. */
  lemma SetFieldInWord(w: Word, width: nat, lsb: nat, v: nat)
    requires v < Pow2(width) && lsb + width <= 32
    ensures SetField(w, width, lsb, v) < WORD_MODULUS
  {
    var P, Q, R := Pow2(lsb), Pow2(width), Pow2(32 - (lsb + width));
    Pow2Add(lsb, width);
    Pow2Add(32 - (lsb + width), lsb + width);
    Pow2Is32();
    assert R * (P * Q) == WORD_MODULUS;
    ReplaceDigitBound(w, P, Q, R, v);
  }

  lemma Pow2Is32()
    ensures Pow2(32) == 0x1_0000_0000
  {
    Pow2Add(16, 16);
    Pow2Add(8, 8);
    assert Pow2(8) == 256;
  }

  lemma Pow2Is64()
    ensures Pow2(64) == 0x1_0000_0000_0000_0000
  {
    Pow2Is32();
    Pow2Add(32, 32);
  }

  // ---------------------------------------------------------------------
  // 64-bit shifts, as C performs them on uint64_t (amounts below 64 only;
  // a shift by 64 or more is undefined in C).

  const UINT64_MODULUS: int := 0x1_0000_0000_0000_0000

  function Shl64(x: nat, n: nat): nat
    requires n < 64
  {
    (x * Pow2(n)) % UINT64_MODULUS
  }

  function Shr64(x: nat, n: nat): nat
    requires n < 64
  {
    x / Pow2(n)
  }

  /**
   * Shifting the field to the top of a 64-bit value and back down to bit 0
   * extracts it: the common core of both shift-based extractors.
   */
  lemma ShiftExtract(word: nat, width: nat, lsb: nat)
    requires word < UINT64_MODULUS && 0 < width && lsb + width <= 64
    ensures Shr64(Shl64(word, 64 - (lsb + width)), 64 - width) == GetField(word, width, lsb)
  {
    var hi := lsb + width;
    var k := 64 - hi;
    Pow2Is64();
    Pow2Add(k, hi);
    MulModScaled(word, Pow2(k), Pow2(hi));
    assert Shl64(word, k) == (word % Pow2(hi)) * Pow2(k);
    Pow2Add(k, lsb);
    MulDivCancel(word % Pow2(hi), Pow2(k), Pow2(lsb));
    Pow2Add(lsb, width);
    ModDiv(word, Pow2(lsb), Pow2(width));
  }

  /**
   * bp_get_u of change9: two shifts of a 64-bit value, with a shift count
   * of 64 handled explicitly as a zero result.
   */
  function BpGetU(word: nat, width: nat, lsb: nat): (r: nat)
    requires word < UINT64_MODULUS
    requires width <= 64 && lsb + width <= 64
    ensures r == GetField(word, width, lsb)
  {
    var hi := lsb + width;
    var shl := if 64 - hi == 64 then 0 else Shl64(word, 64 - hi);
    var r := if 64 - width == 64 then 0 else Shr64(shl, 64 - width);
    if width > 0 then ShiftExtract(word, width, lsb); r else r
  }

  /**
   * bp_get_u of change13: the same two shifts without the guard, so the
   * width must be positive (a zero width would shift by 64).
   */
  function BpGetUShift(word: nat, width: nat, lsb: nat): (r: nat)
    requires word < UINT64_MODULUS
    requires 0 < width && lsb + width <= 64
    ensures r == GetField(word, width, lsb)
  {
    ShiftExtract(word, width, lsb);
    Shr64(Shl64(word, 64 - (lsb + width)), 64 - width)
  }

  // ---------------------------------------------------------------------
  // Instruction fields.

  /** Offset of register field 'a', 'b' or 'c' in a three-register instruction. */
  function RegFieldLsb(field: char): nat
  {
    if field == 'c' then 0 else if field == 'b' then 3 else 6
  }

  /**
   * The register field 'a', 'b' or 'c' of a three-register instruction
   * (bits 6..8, 3..5 and 0..2), as get_reg_i of umInstructions.c reads it
   * with Bitpack_getu; any other character yields 0.
   */
  function RegIndexOf(instr: Word, field: char): RegIndex
  {
    if field == 'c' then instr % 8
    else if field == 'b' then (instr / 8) % 8
    else if field == 'a' then (instr / 64) % 8
    else 0
  }

  /** The opcode of an instruction: its top four bits. */
  function Opcode(instr: Word): (op: nat)
    ensures op < 16
  {
    instr / 0x1000_0000
  }

  /** The A field of the immediate-load form (bits 25..27). */
  function LoadValueReg(instr: Word): RegIndex
  {
    (instr / 0x200_0000) % 8
  }

  /** The immediate of the immediate-load form (bits 0..24). */
  function LoadValueImmediate(instr: Word): (v: Word)
    ensures v < 0x200_0000
  {
    instr % 0x200_0000
  }

  lemma Pow2Values()
    ensures Pow2(3) == 8 && Pow2(4) == 16 && Pow2(6) == 64
    ensures Pow2(25) == 0x200_0000 && Pow2(28) == 0x1000_0000
  {
    Pow2Add(3, 3);
    Pow2Add(25, 3);
    Pow2Add(24, 1);
    Pow2Add(12, 12);
    Pow2Add(6, 6);
  }

  /**
   * The decoder reads exactly the instruction's bit fields: the opcode is
   * bits 28..31, registers C, B and A bits 0..2, 3..5 and 6..8, and the
   * immediate-load form keeps its register in bits 25..27 and its value in
   * bits 0..24.
   */
  lemma DecodedFields(instr: Word)
    ensures Opcode(instr) == GetField(instr, 4, 28)
    ensures RegIndexOf(instr, 'c') == GetField(instr, 3, 0)
    ensures RegIndexOf(instr, 'b') == GetField(instr, 3, 3)
    ensures RegIndexOf(instr, 'a') == GetField(instr, 3, 6)
    ensures LoadValueReg(instr) == GetField(instr, 3, 25)
    ensures LoadValueImmediate(instr) == GetField(instr, 25, 0)
  {
    Pow2Values();
    assert Pow2(0) == 1;
    var op := instr / 0x1000_0000;
    assert op < 16 by {
      DivBelow(instr, 0x1000_0000, 16);
    }
    DivModUnique(op, 16, 0, op);
  }

  /** get_reg_i of change9: the same fields read with bp_get_u. */
  function GetRegI(instr: Word, field: char): (r: RegIndex)
    ensures r == RegIndexOf(instr, field)
  {
    Pow2Is64();
    DecodedFields(instr);
    if field == 'c' then BpGetU(instr, 3, 0)
    else if field == 'b' then BpGetU(instr, 3, 3)
    else if field == 'a' then BpGetU(instr, 3, 6)
    else 0
  }

  /**
   * get_reg_i of change13: the instruction is widened to 64 bits and the
   * field is isolated by a left shift of 61, 58 or 55 followed by a right
   * shift of 61. Every character other than 'c' and 'b' selects field 'a'.
   */
  function GetRegIShift(instr: Word, field: char): (r: RegIndex)
    ensures field in "abc" ==> r == RegIndexOf(instr, field)
    ensures field !in "bc" ==> r == RegIndexOf(instr, 'a')
  {
    Pow2Is64();
    ShiftExtract(instr, 3, 0);
    ShiftExtract(instr, 3, 3);
    ShiftExtract(instr, 3, 6);
    DecodedFields(instr);
    if field == 'c' then Shr64(Shl64(instr, 61), 61)
    else if field == 'b' then Shr64(Shl64(instr, 58), 61)
    else Shr64(Shl64(instr, 55), 61)
  }

  /** The opcode as change9 computes it, with bp_get_u(instr, 4, 28). */
  function OpcodeBpGetU(instr: Word): (op: nat)
    ensures op == Opcode(instr)
  {
    Pow2Is64();
    DecodedFields(instr);
    BpGetU(instr, 4, 28)
  }

  /**
   * The opcode as change13 computes it: `((uint64_t)instr << 32) >> 60`.
   * Nothing is lost in the left shift, so this is the top four bits.
   */
  function OpcodeShift(instr: Word): (op: nat)
    ensures op == Opcode(instr)
  {
    Pow2Is64();
    ShiftExtract(instr, 4, 28);
    DecodedFields(instr);
    Shr64(Shl64(instr, 32), 60)
  }

  /** Load Value's fields as change9 reads them, with bp_get_u(instr, 3, 25) and bp_get_u(instr, 25, 0). */
  function LoadValueFields(instr: Word): (f: (RegIndex, Word))
    ensures f == (LoadValueReg(instr), LoadValueImmediate(instr))
  {
    Pow2Is64();
    DecodedFields(instr);
    (BpGetU(instr, 3, 25), BpGetU(instr, 25, 0))
  }

  /** The same two fields read with change13's shift-based bp_get_u. */
  function LoadValueFieldsShift(instr: Word): (f: (RegIndex, Word))
    ensures f == (LoadValueReg(instr), LoadValueImmediate(instr))
  {
    Pow2Is64();
    DecodedFields(instr);
    (BpGetUShift(instr, 3, 25), BpGetUShift(instr, 25, 0))
  }
}
