/**
 * The program image: a file of bytes read four at a time, most significant
 * byte first, into the words of segment 0 (load_mem), and the inverse
 * direction, a word written out as its four bytes from the top down
 * (Um_write_sequence). Bytes after the last whole word are never read.
 */
module Loader {
  import opened Wrappers
  import opened Arith
  import opened Words
  import opened Bitpack

  /** Four bytes, most significant first, as one word. */
  function PackWord(b0: Byte, b1: Byte, b2: Byte, b3: Byte): Word
  {
    b0 as int * 0x100_0000 + b1 as int * 0x1_0000 + b2 as int * 0x100 + b3
  }

  /** The image as words: bytes 4i .. 4i + 3 make word i; the trailing |bytes| % 4 bytes are dropped. */
  function Pack(bytes: seq<Byte>): (words: seq<Word>)
    ensures |words| == |bytes| / 4
  {
    seq(|bytes| / 4, i requires 0 <= i < |bytes| / 4 =>
      PackWord(bytes[4 * i], bytes[4 * i + 1], bytes[4 * i + 2], bytes[4 * i + 3]))
  }

  /** The four bytes of a word, from bits 24..31 down to bits 0..7. */
  function WordBytes(w: Word): (bytes: seq<Byte>)
    ensures |bytes| == 4
  {
    [w / 0x100_0000, (w / 0x1_0000) % 0x100, (w / 0x100) % 0x100, w % 0x100]
  }

  /** The bytes of a sequence of words, word after word. */
  function Serialize(words: seq<Word>): (bytes: seq<Byte>)
    ensures |bytes| == 4 * |words|
  {
    if words == [] then [] else WordBytes(words[0]) + Serialize(words[1..])
  }

  lemma Pow2Bytes()
    ensures Pow2(0) == 1 && Pow2(8) == 0x100 && Pow2(16) == 0x1_0000 && Pow2(24) == 0x100_0000
  {
    Pow2Add(4, 4);
    Pow2Add(8, 8);
    Pow2Add(16, 8);
  }

  /** The four bytes are the fields Bitpack_getu(w, 8, 24), (8, 16), (8, 8) and (8, 0). */
  lemma WordBytesAreFields(w: Word)
    ensures WordBytes(w) == [GetField(w, 8, 24), GetField(w, 8, 16), GetField(w, 8, 8), GetField(w, 8, 0)]
  {
    Pow2Bytes();
    assert w / 0x100_0000 < 0x100;
    DivModUnique(w / 0x100_0000, 0x100, 0, w / 0x100_0000);
  }

  /** Packing a word's bytes gives the word back. */
  lemma PackWordBytes(w: Word)
    ensures var b := WordBytes(w); PackWord(b[0], b[1], b[2], b[3]) == w
  {
    var r1 := w / 0x100;
    var r2 := r1 / 0x100;
    var r3 := r2 / 0x100;
    DivDiv(w, 0x100, 0x100);
    DivDiv(w, 0x1_0000, 0x100);
    assert r2 == w / 0x1_0000 && r3 == w / 0x100_0000;
    assert w == ((r3 * 0x100 + r2 % 0x100) * 0x100 + r1 % 0x100) * 0x100 + w % 0x100;
  }

  /** Taking a packed word apart gives its four bytes back. */
  lemma WordBytesPack(b0: Byte, b1: Byte, b2: Byte, b3: Byte)
    ensures WordBytes(PackWord(b0, b1, b2, b3)) == [b0, b1, b2, b3]
  {
    var w := PackWord(b0, b1, b2, b3);
    DivModUnique(w, 0x100, b0 * 0x1_0000 + b1 * 0x100 + b2, b3);
    DivModUnique(w, 0x1_0000, b0 * 0x100 + b1, b2 * 0x100 + b3);
    DivModUnique(w, 0x100_0000, b0, b1 * 0x1_0000 + b2 * 0x100 + b3);
    DivModUnique(b0 * 0x1_0000 + b1 * 0x100 + b2, 0x100, b0 * 0x100 + b1, b2);
    DivModUnique(b0 * 0x100 + b1, 0x100, b0, b1);
  }

  /** Word i of the serialization occupies bytes 4i .. 4i + 3. */
  lemma {:induction false} SerializeAt(words: seq<Word>, i: nat)
    requires i < |words|
    ensures Serialize(words)[4 * i .. 4 * i + 4] == WordBytes(words[i])
  {
    if i > 0 {
      SerializeAt(words[1..], i - 1);
      assert Serialize(words) == WordBytes(words[0]) + Serialize(words[1..]);
      assert Serialize(words)[4 * i .. 4 * i + 4] == Serialize(words[1..])[4 * (i - 1) .. 4 * (i - 1) + 4];
    }
  }

  /** Reading back what Um_write_sequence wrote gives the same program. */
  lemma PackSerialize(words: seq<Word>)
    ensures Pack(Serialize(words)) == words
  {
    var bytes := Serialize(words);
    forall i | 0 <= i < |words|
      ensures Pack(bytes)[i] == words[i]
    {
      SerializeAt(words, i);
      assert bytes[4 * i .. 4 * i + 4] == WordBytes(words[i]);
      PackWordBytes(words[i]);
    }
  }

  /** Writing out a loaded image reproduces the file up to its last whole word. */
  lemma SerializePack(bytes: seq<Byte>)
    ensures Serialize(Pack(bytes)) == bytes[..4 * (|bytes| / 4)]
  {
    var words := Pack(bytes);
    var out := Serialize(words);
    forall m | 0 <= m < |out|
      ensures out[m] == bytes[m]
    {
      var i := m / 4;
      SerializeAt(words, i);
      WordBytesPack(bytes[4 * i], bytes[4 * i + 1], bytes[4 * i + 2], bytes[4 * i + 3]);
      assert out[m] == out[4 * i .. 4 * i + 4][m - 4 * i];
    }
  }

  /** Scale of byte j of a word, most significant first. */
  function ByteScale(j: nat): nat
    requires j < 4
  {
    if j == 0 then 0x100_0000 else if j == 1 then 0x1_0000 else if j == 2 then 0x100 else 1
  }

  /** The word after the first j of its four bytes have been packed in. */
  function PartialWord(q: seq<Byte>, j: nat): nat
    requires |q| == 4 && j <= 4
  {
    (if j > 0 then q[0] as int * 0x100_0000 else 0) + (if j > 1 then q[1] as int * 0x1_0000 else 0) +
    (if j > 2 then q[2] as int * 0x100 else 0) + (if j > 3 then q[3] as int else 0)
  }

  /** Before byte j is packed in, its eight bits are still zero. */
  lemma ByteStillEmpty(q: seq<Byte>, j: nat)
    requires |q| == 4 && j < 4
    ensures GetField(PartialWord(q, j), 8, 24 - 8 * j) == 0
  {
    Pow2Bytes();
    var b0, b1, b2 := q[0] as int, q[1] as int, q[2] as int;
    var w := PartialWord(q, j);
    if j == 1 {
      DivModUnique(w, 0x1_0000, b0 * 0x100, 0);
      DivModUnique(b0 * 0x100, 0x100, b0, 0);
    } else if j == 2 {
      DivModUnique(w, 0x100, b0 * 0x1_0000 + b1 * 0x100, 0);
      DivModUnique(b0 * 0x1_0000 + b1 * 0x100, 0x100, b0 * 0x100 + b1, 0);
    } else if j == 3 {
      DivModUnique(w, 0x100, b0 * 0x1_0000 + b1 * 0x100 + b2, 0);
    }
  }

  /** Bitpack_newu(temp, 8, 24 - 8j, byte) fills the still-empty byte j. */
  lemma PackStep(q: seq<Byte>, j: nat)
    requires |q| == 4 && j < 4
    ensures SetField(PartialWord(q, j), 8, 24 - 8 * j, q[j]) == PartialWord(q, j + 1)
  {
    Pow2Bytes();
    ByteStillEmpty(q, j);
    SetEmptyField(PartialWord(q, j), 8, 24 - 8 * j, q[j]);
    assert Pow2(24 - 8 * j) == ByteScale(j);
  }

  /**
   * The packing loop of load_mem: |bytes| / 4 words, each built from the
   * next four bytes by four calls of Bitpack_newu(temp, 8, 24 - 8j, byte).
   */
  method PackSegment(bytes: seq<Byte>) returns (segment: seq<Word>)
    ensures segment == Pack(bytes)
  {
    var numInstructions := |bytes| / 4;
    var words := new Word[numInstructions];
    var next := 0;
    Pow2Bytes();
    for i := 0 to numInstructions
      invariant next == 4 * i
      invariant forall k :: 0 <= k < i ==> words[k] == Pack(bytes)[k]
    {
      ghost var q := bytes[4 * i .. 4 * i + 4];
      var temp: nat := 0;
      for j := 0 to 4
        modifies {}
        invariant next == 4 * i + j
        invariant temp == PartialWord(q, j)
      {
        PackStep(q, j);
        temp := NewU(temp, 8, 24 - 8 * j, bytes[next]).value;
        next := next + 1;
      }
      assert temp == PackWord(bytes[4 * i], bytes[4 * i + 1], bytes[4 * i + 2], bytes[4 * i + 3]) == Pack(bytes)[i];
      words[i] := temp;
    }
    segment := words[..];
  }
}
