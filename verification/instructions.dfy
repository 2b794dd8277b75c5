/**
 * The instruction routines that every interpreter variant shares word for
 * word: the ones that take only the register file (`Um_instruction
 * *registers` in the C code) and the two segment-building loops of Map
 * Segment and Load Program.
 *
 * Each routine is given the register indices already decoded, together
 * with the abstract machine `s` whose register file the array holds, and
 * promises that the array afterwards holds the registers of the
 * corresponding function of the module Machine. Everything else in the
 * machine is out of their reach.
 */
module Instructions {
  import opened Wrappers
  import opened Words
  import opened Machine

  /** The array holds exactly the registers of `s`. */
  ghost predicate Holds(registers: array<Word>, s: State)
    reads registers
  {
    registers.Length == 8 && registers[..] == s.regs
  }

  /** conditional_move: r[A] := r[B] when r[C] is not zero. */
  method ConditionalMove(registers: array<Word>, a: RegIndex, b: RegIndex, c: RegIndex, ghost s: State)
    requires Holds(registers, s)
    modifies registers
    ensures Holds(registers, Machine.ConditionalMove(s, a, b, c))
  {
    if registers[c] != 0 {
      registers[a] := registers[b];
    }
  }

  /** addition: r[A] := (r[B] + r[C]) mod 2^32. */
  method Addition(registers: array<Word>, a: RegIndex, b: RegIndex, c: RegIndex, ghost s: State)
    requires Holds(registers, s)
    modifies registers
    ensures Holds(registers, Machine.Addition(s, a, b, c))
  {
    registers[a] := (registers[b] + registers[c]) % WORD_MODULUS;
  }

  /** multiplication: r[A] := (r[B] * r[C]) mod 2^32. */
  method Multiplication(registers: array<Word>, a: RegIndex, b: RegIndex, c: RegIndex, ghost s: State)
    requires Holds(registers, s)
    modifies registers
    ensures Holds(registers, Machine.Multiplication(s, a, b, c))
  {
    registers[a] := (registers[b] * registers[c]) % WORD_MODULUS;
  }

  /** division: r[A] := r[B] / r[C]; a zero divisor is reported before any register changes. */
  method Division(registers: array<Word>, a: RegIndex, b: RegIndex, c: RegIndex, ghost s: State)
    returns (fault: Option<Fault>)
    requires Holds(registers, s)
    modifies registers
    ensures fault.Some? ==> Holds(registers, s) && Machine.Division(s, a, b, c) == Failure(fault.value)
    ensures fault.None? ==>
      Machine.Division(s, a, b, c).Success? && Holds(registers, Machine.Division(s, a, b, c).value)
  {
    if registers[c] == 0 {
      return Some(DivideByZero);
    }
    registers[a] := registers[b] / registers[c];
    return None;
  }

  /** bitwise_NAND: r[A] := ~(r[B] & r[C]). */
  method BitwiseNand(registers: array<Word>, a: RegIndex, b: RegIndex, c: RegIndex, ghost s: State)
    requires Holds(registers, s)
    modifies registers
    ensures Holds(registers, Machine.BitwiseNand(s, a, b, c))
  {
    registers[a] := Nand(registers[b], registers[c]);
  }

  /** load_value: register `a` takes the immediate `v`, both read from the instruction. */
  method LoadValue(registers: array<Word>, a: RegIndex, v: Word, ghost s: State)
    requires Holds(registers, s)
    modifies registers
    ensures Holds(registers, Machine.LoadValue(s, a, v))
  {
    registers[a] := v;
  }

  /** The zero-filling loop of map_segment: a fresh segment of `n` words, all zero. */
  method ZeroSegment(n: Word) returns (segment: Segment)
    ensures segment == Zeros(n)
  {
    var words := new Word[n];
    var i := 0;
    while i < n
      invariant 0 <= i <= n
      invariant forall k :: 0 <= k < i ==> words[k] == 0
    {
      words[i] := 0;
      i := i + 1;
    }
    segment := words[..];
  }

  /** The copying loop of load_program: the first `n` words of `source`, word by word. */
  method CopySegment(source: Segment, n: Word) returns (copy: Segment)
    requires n <= |source|
    ensures copy == source[..n]
  {
    var words := new Word[n];
    var i := 0;
    while i < n
      invariant 0 <= i <= n
      invariant forall k :: 0 <= k < i ==> words[k] == source[k]
    {
      words[i] := source[i];
      i := i + 1;
    }
    copy := words[..];
  }
}
