/**
 * The test-program writer of change1/umlab.c: the two instruction encoders
 * built from Bitpack_newu, a wrapper per instruction, the stream of words
 * a test is appended to, and Um_write_sequence, which writes a stream out
 * four bytes to a word, most significant byte first.
 *
 * A register argument of the encoders is a C `int`, converted to
 * `uint64_t` before it is packed; a negative register therefore becomes a
 * value far too wide for its field, and Bitpack_newu raises
 * Bitpack_Overflow, which is `None` here.
 */
module UmLab {
  import opened Wrappers
  import opened Arith
  import opened Words
  import opened Bitpack
  import Machine
  import Loader

  // The Um_opcode enumeration.
  const CMOV: nat := 0
  const SLOAD: nat := 1
  const SSTORE: nat := 2
  const ADD: nat := 3
  const MUL: nat := 4
  const DIV: nat := 5
  const NAND: nat := 6
  const HALT: nat := 7
  const ACTIVATE: nat := 8
  const INACTIVATE: nat := 9
  const OUT: nat := 10
  const IN: nat := 11
  const LOADP: nat := 12
  const LV: nat := 13

  /** A C `int`. */
  type Int32 = x: int | -0x8000_0000 <= x < 0x8000_0000

  /** The C conversion of an `int` to `uint64_t`: a negative value wraps to 2^64 plus the value. */
  function ToUint64(x: Int32): (u: nat)
    ensures x >= 0 ==> u == x
    ensures x < 0 ==> u == x + 0x1_0000_0000_0000_0000
  {
    if x < 0 then
      DivModUnique(x, 0x1_0000_0000_0000_0000, -1, x + 0x1_0000_0000_0000_0000);
      x % 0x1_0000_0000_0000_0000
    else
      DivModUnique(x, 0x1_0000_0000_0000_0000, 0, x);
      x % 0x1_0000_0000_0000_0000
  }

  /** Word `w` decodes to opcode `op` and registers A, B and C. */
  predicate Encodes(w: Word, op: nat, a: RegIndex, b: RegIndex, c: RegIndex)
  {
    var d := Machine.Decode(w);
    d.op == op && d.a == a && d.b == b && d.c == c
  }

  /** Packing op, rc, rb and ra into a zero word with Bitpack_newu puts each in place, every other bit zero. */
  lemma ThreeRegisterPacks(op: nat, ra: nat, rb: nat, rc: nat)
    requires op < 16 && ra < 8 && rb < 8 && rc < 8
    ensures Pow2(3) == 8 && Pow2(4) == 16
    ensures SetField(SetField(SetField(SetField(0, 4, 28, op), 3, 0, rc), 3, 3, rb), 3, 6, ra) ==
            op * 0x1000_0000 + ra * 64 + rb * 8 + rc
  {
    Pow2Values();
    assert Pow2(0) == 1;
    var w0 := op * 0x1000_0000;
    var w1 := w0 + rc;
    var w2 := w1 + rb * 8;
    var w := w2 + ra * 64;
    assert SetField(0, 4, 28, op) == w0 by {
      DivModUnique(0, Pow2(28), 0, 0);
      SetEmptyField(0, 4, 28, op);
    }
    assert SetField(w0, 3, 0, rc) == w1 by {
      DivModUnique(w0, 8, op * 0x200_0000, 0);
      SetEmptyField(w0, 3, 0, rc);
    }
    assert SetField(w1, 3, 3, rb) == w2 by {
      DivModUnique(w1, 8, op * 0x200_0000, rc);
      DivModUnique(op * 0x200_0000, 8, op * 0x40_0000, 0);
      SetEmptyField(w1, 3, 3, rb);
    }
    assert SetField(w2, 3, 6, ra) == w by {
      DivModUnique(w2, 64, op * 0x40_0000, rb * 8 + rc);
      DivModUnique(op * 0x40_0000, 8, op * 0x8_0000, 0);
      SetEmptyField(w2, 3, 6, ra);
    }
  }

  /** The word with opcode `op` and registers `ra`, `rb`, `rc` in place decodes to those fields. */
  lemma ThreeRegisterDecodes(op: nat, ra: nat, rb: nat, rc: nat)
    requires op < 16 && ra < 8 && rb < 8 && rc < 8
    ensures var w := op * 0x1000_0000 + ra * 64 + rb * 8 + rc;
      w < WORD_MODULUS && Encodes(w, op, ra, rb, rc)
  {
    var w := op * 0x1000_0000 + ra * 64 + rb * 8 + rc;
    DivModUnique(w, 0x1000_0000, op, ra * 64 + rb * 8 + rc);
    DivModUnique(w, 8, op * 0x200_0000 + ra * 8 + rb, rc);
    DivModUnique(op * 0x200_0000 + ra * 8 + rb, 8, op * 0x40_0000 + ra, rb);
    DivModUnique(w, 64, op * 0x40_0000 + ra, rb * 8 + rc);
    DivModUnique(op * 0x40_0000 + ra, 8, op * 0x8_0000, ra);
  }

  /**
   * three_register: op in bits 28..31, ra in bits 6..8, rb in bits 3..5
   * and rc in bits 0..2, packed one after the other with Bitpack_newu into
   * a word that starts out zero; `None` where a value does not fit its field.
   */
  function ThreeRegister(op: nat, ra: Int32, rb: Int32, rc: Int32): (r: Option<Word>)
    ensures r.Some? <==> op < 16 && 0 <= ra < 8 && 0 <= rb < 8 && 0 <= rc < 8
    ensures r.Some? ==> r.value == op * 0x1000_0000 + ra * 64 + rb * 8 + rc
    ensures r.Some? ==> Encodes(r.value, op, ra, rb, rc)
  {
    Pow2Values();
    var w0 := NewU(0, 4, 28, op);
    if w0.None? then None
    else
      var w1 := NewU(w0.value, 3, 0, ToUint64(rc));
      if w1.None? then None
      else
        var w2 := NewU(w1.value, 3, 3, ToUint64(rb));
        if w2.None? then None
        else
          var w3 := NewU(w2.value, 3, 6, ToUint64(ra));
          if w3.None? then None
          else
            ThreeRegisterPacks(op, ra, rb, rc);
            ThreeRegisterDecodes(op, ra, rb, rc);
            Some(w3.value)
  }

  /** Reducing modulo 512 and then modulo 8 is reducing modulo 8. */
  lemma ModModEight(y: nat)
    ensures (y % 512) % 8 == y % 8 && (y % 64) % 8 == y % 8
  {
    DivModUnique(y, 8, (y / 512) * 64 + (y % 512) / 8, (y % 512) % 8);
    DivModUnique(y, 8, (y / 64) * 8 + (y % 64) / 8, (y % 64) % 8);
  }

  /** A word whose bits 9..27 are zero is its opcode and its three register fields, put back together. */
  lemma FieldsRebuildWord(w: Word)
    requires GetField(w, 19, 9) == 0
    ensures w == Opcode(w) * 0x1000_0000 + RegIndexOf(w, 'a') * 64 + RegIndexOf(w, 'b') * 8 + RegIndexOf(w, 'c')
  {
    var low := w % 512;
    assert w == (w / 0x1000_0000) * 0x1000_0000 + low by {
      Pow2Values();
      Pow2Add(3, 6);
      Pow2Add(19, 6);
      assert (w / 512) % 0x8_0000 == 0;
      DivDiv(w, 512, 0x8_0000);
      assert w / 512 == (w / 0x1000_0000) * 0x8_0000;
    }
    assert low == ((w / 64) % 8) * 64 + ((w / 8) % 8) * 8 + w % 8 by {
      SplitThree(low, 8, 8);
      ModDiv(w, 64, 8);
      ModDiv(w, 8, 64);
      ModModEight(w);
      ModModEight(w / 8);
    }
  }

  /** Every word whose bits 9..27 are zero is the three_register word of its own fields. */
  lemma ThreeRegisterOfFields(w: Word)
    requires GetField(w, 19, 9) == 0
    ensures ThreeRegister(Opcode(w), RegIndexOf(w, 'a'), RegIndexOf(w, 'b'), RegIndexOf(w, 'c')) == Some(w)
  {
    FieldsRebuildWord(w);
  }

  /** The word with opcode 13, register `ra` in bits 25..27 and `val` in bits 0..24, decodes to those fields. */
  lemma LoadValWordDecodes(ra: nat, val: nat)
    requires ra < 8 && val < 0x200_0000
    ensures var w := LV * 0x1000_0000 + ra * 0x200_0000 + val;
      && w < WORD_MODULUS
      && Opcode(w) == LV && LoadValueReg(w) == ra && LoadValueImmediate(w) == val
  {
    var w := LV * 0x1000_0000 + ra * 0x200_0000 + val;
    DivModUnique(w, 0x1000_0000, LV, ra * 0x200_0000 + val);
    DivModUnique(w, 0x200_0000, LV * 8 + ra, val);
    DivModUnique(LV * 8 + ra, 8, LV, ra);
  }

  /** Packing opcode 13, then `ra`, then `val` into a zero word with Bitpack_newu gives that word. */
  lemma LoadValWordPacks(ra: nat, val: nat)
    requires ra < 8 && val < 0x200_0000
    ensures Pow2(25) == 0x200_0000
    ensures SetField(SetField(SetField(0, 4, 28, LV), 3, 25, ra), 25, 0, val) ==
            LV * 0x1000_0000 + ra * 0x200_0000 + val
  {
    Pow2Values();
    var w0 := LV * 0x1000_0000;
    var w1 := w0 + ra * 0x200_0000;
    var x0 := SetField(0, 4, 28, LV);
    assert x0 == w0 by {
      SetEmptyField(0, 4, 28, LV);
    }
    var x1 := SetField(x0, 3, 25, ra);
    assert x1 == w1 by {
      DivModUnique(w0, 0x200_0000, LV * 8, 0);
      DivModUnique(LV * 8, 8, LV, 0);
      SetEmptyField(w0, 3, 25, ra);
    }
    assert SetField(x1, 25, 0, val) == w1 + val by {
      assert Pow2(0) == 1;
      DivModUnique(w1, 0x200_0000, LV * 8 + ra, 0);
      SetEmptyField(w1, 25, 0, val);
    }
  }

  /**
   * loadval: opcode 13 in bits 28..31, ra in bits 25..27 and val in bits
   * 0..24; `None` where ra or val does not fit its field.
   */
  function LoadVal(ra: Word, val: Word): (r: Option<Word>)
    ensures r.Some? <==> ra < 8 && val < 0x200_0000
    ensures r.Some? ==> r.value == LV * 0x1000_0000 + ra * 0x200_0000 + val
    ensures r.Some? ==>
      Machine.Decode(r.value).op == LV && Machine.Decode(r.value).la == ra && Machine.Decode(r.value).value == val
  {
    Pow2Values();
    var w0 := NewU(0, 4, 28, LV);
    var w1 := NewU(w0.value, 3, 25, ra);
    if w1.None? then None
    else
      var w2 := NewU(w1.value, 25, 0, val);
      if w2.None? then None
      else
        LoadValWordPacks(ra, val);
        LoadValWordDecodes(ra, val);
        Some(w2.value)
  }

  /** loadval on a register and a value that fit. */
  function Lv(a: RegIndex, val: Word): (w: Word)
    requires val < 0x200_0000
    ensures Machine.Decode(w).op == LV && Machine.Decode(w).la == a && Machine.Decode(w).value == val
  {
    LoadVal(a, val).value
  }

  /** halt(): opcode 7 with all three registers 0. */
  function Halt(): (w: Word)
    ensures Encodes(w, HALT, 0, 0, 0)
  {
    ThreeRegister(HALT, 0, 0, 0).value
  }

  function Add(a: RegIndex, b: RegIndex, c: RegIndex): (w: Word)
    ensures Encodes(w, ADD, a, b, c)
  {
    ThreeRegister(ADD, a, b, c).value
  }

  function Mult(a: RegIndex, b: RegIndex, c: RegIndex): (w: Word)
    ensures Encodes(w, MUL, a, b, c)
  {
    ThreeRegister(MUL, a, b, c).value
  }

  function Div(a: RegIndex, b: RegIndex, c: RegIndex): (w: Word)
    ensures Encodes(w, DIV, a, b, c)
  {
    ThreeRegister(DIV, a, b, c).value
  }

  function NandOf(a: RegIndex, b: RegIndex, c: RegIndex): (w: Word)
    ensures Encodes(w, NAND, a, b, c)
  {
    ThreeRegister(NAND, a, b, c).value
  }

  /** output(c): registers A and B are zero. */
  function Output(c: RegIndex): (w: Word)
    ensures Encodes(w, OUT, 0, 0, c)
  {
    ThreeRegister(OUT, 0, 0, c).value
  }

  /** input(c): registers A and B are zero. */
  function Input(c: RegIndex): (w: Word)
    ensures Encodes(w, IN, 0, 0, c)
  {
    ThreeRegister(IN, 0, 0, c).value
  }

  /** map(b, c): register A is zero. */
  function Map(b: RegIndex, c: RegIndex): (w: Word)
    ensures Encodes(w, ACTIVATE, 0, b, c)
  {
    ThreeRegister(ACTIVATE, 0, b, c).value
  }

  function Cmov(a: RegIndex, b: RegIndex, c: RegIndex): (w: Word)
    ensures Encodes(w, CMOV, a, b, c)
  {
    ThreeRegister(CMOV, a, b, c).value
  }

  /** unmap(c): registers A and B are zero. */
  function Unmap(c: RegIndex): (w: Word)
    ensures Encodes(w, INACTIVATE, 0, 0, c)
  {
    ThreeRegister(INACTIVATE, 0, 0, c).value
  }

  function Sload(a: RegIndex, b: RegIndex, c: RegIndex): (w: Word)
    ensures Encodes(w, SLOAD, a, b, c)
  {
    ThreeRegister(SLOAD, a, b, c).value
  }

  function Sstore(a: RegIndex, b: RegIndex, c: RegIndex): (w: Word)
    ensures Encodes(w, SSTORE, a, b, c)
  {
    ThreeRegister(SSTORE, a, b, c).value
  }

  /** loadp(b, c): register A is zero. */
  function Loadp(b: RegIndex, c: RegIndex): (w: Word)
    ensures Encodes(w, LOADP, 0, b, c)
  {
    ThreeRegister(LOADP, 0, b, c).value
  }

  /** Serializing one more word appends its four bytes. */
  lemma {:induction false} SerializeSnoc(words: seq<Word>, w: Word)
    ensures Loader.Serialize(words + [w]) == Loader.Serialize(words) + Loader.WordBytes(w)
  {
    if words == [] {
      assert words + [w] == [w];
      assert Loader.Serialize([w]) == Loader.WordBytes(w) + Loader.Serialize([]);
    } else {
      assert (words + [w])[1..] == words[1..] + [w];
      SerializeSnoc(words[1..], w);
    }
  }

  /**
   * The inner loop of Um_write_sequence: Bitpack_getu(inst, 8, lsb) is
   * written for lsb = 24, 16, 8 and 0, so the word's four bytes go out most
   * significant first.
   */
  method WriteWord(file: seq<Byte>, inst: Word) returns (written: seq<Byte>)
    ensures written == file + Loader.WordBytes(inst)
  {
    Loader.WordBytesAreFields(inst);
    Loader.Pow2Bytes();
    written := file;
    var lsb := 24;
    ghost var j := 0;
    while lsb >= 0
      invariant 0 <= j <= 4 && lsb == 24 - 8 * j
      invariant written == file + Loader.WordBytes(inst)[..j]
    {
      assert Loader.WordBytes(inst)[..j + 1] == Loader.WordBytes(inst)[..j] + [GetField(inst, 8, lsb)];
      written := written + [GetField(inst, 8, lsb)];
      lsb := lsb - 8;
      j := j + 1;
    }
  }

  /** A unit test under construction: a Hanson sequence of instruction words. */
  class Stream {
    var words: seq<Word>

    constructor ()
      ensures words == []
    {
      words := [];
    }

    /** append: the instruction goes at the high end of the stream. */
    method Append(inst: Word)
      modifies this
      ensures words == old(words) + [inst]
    {
      words := words + [inst];
    }

    /**
     * Um_write_sequence: every word is taken off the low end of the stream
     * with Seq_remlo and written to `file` as Bitpack_getu(inst, 8, lsb)
     * for lsb = 24, 16, 8 and 0. The file ends up with the serialization of
     * the whole stream, and the stream is empty.
     */
    method WriteSequence(file: seq<Byte>) returns (written: seq<Byte>)
      modifies this
      ensures written == file + Loader.Serialize(old(words))
      ensures words == []
    {
      ghost var all := words;
      var streamLength := |words|;
      written := file;
      for i := 0 to streamLength
        invariant words == all[i..]
        invariant written == file + Loader.Serialize(all[..i])
      {
        var inst := words[0];
        words := words[1..];
        written := WriteWord(written, inst);
        assert all[..i + 1] == all[..i] + [inst];
        SerializeSnoc(all[..i], inst);
      }
      assert all[..streamLength] == all;
    }
  }
}
