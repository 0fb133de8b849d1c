/** The CRC-32 of the PNG writer: the table-driven loop, the bit-at-a-time
    register it abbreviates, and the polynomial long division both compute. */
module Crc32 {
  import opened Words

  // ---- The register, one bit at a time -------------------------------------

  /** The powers of x in the CRC-32 polynomial, as section 3.4 of RFC 2083 lists them. */
  predicate InPolynomial(e: int) {
    e == 32 || e == 26 || e == 23 || e == 22 || e == 16 || e == 12 || e == 11 || e == 10
    || e == 8 || e == 7 || e == 5 || e == 4 || e == 2 || e == 1 || e == 0
  }

  /** The polynomial without its leading term, highest power in the lowest bit. */
  function Polynomial(): (p: Word)
    ensures forall i :: 0 <= i < 32 ==> p[i] == InPolynomial(31 - i)
  {
    seq(32, i => InPolynomial(31 - i))
  }

  /** One shift of the reflected register. */
  function Step(c: Word): Word {
    if c[0] then Xor(Polynomial(), ShiftRight(c, 1)) else ShiftRight(c, 1)
  }

  function Steps(c: Word, n: nat): Word
    decreases n, c
  {
    if n == 0 then c else Steps(Step(c), n - 1)
  }

  /** Feeding one data bit. */
  function Absorb(r: Word, bit: bool): Word {
    Step(r[0 := r[0] != bit])
  }

  /** Feeding data bits in transmission order. */
  function FeedBits(r: Word, bits: seq<bool>): Word
    decreases |bits|
  {
    if bits == [] then r else FeedBits(Absorb(r, bits[0]), bits[1..])
  }

  const BYTE_SIZE: nat := 8

  function BitsOfByte(b: Byte): (bits: seq<bool>)
    ensures |bits| == 8
  {
    ToBits(b as int, BYTE_SIZE)
  }

  /** The bits of a message in transmission order: bytes in order, each least significant bit first. */
  function DataBits(data: seq<Byte>): (bits: seq<bool>)
    ensures |bits| == 8 * |data|
  {
    if data == [] then [] else BitsOfByte(data[0]) + DataBits(data[1..])
  }

  /** The checksum of section 3.4 of RFC 2083: register preset to ones, result complemented. */
  function Crc(data: seq<Byte>): Word {
    Complement(FeedBits(Ones(32), DataBits(data)))
  }

  // ---- The program ---------------------------------------------------------

  ghost predicate IsTable(t: seq<Word>) {
    |t| == 256 && forall i {:trigger t[i]} :: 0 <= i < 256 ==> t[i] == Steps(ToWord(i), 8)
  }

  /** The constant in the source. */
  const MAGIC: nat := 0xEDB8_8320

  method Shift(c: Word) returns (shifted: Word)
    ensures shifted == Step(c)
  {
    MagicConstant();
    shifted := if c[0] then Xor(ToWord(MAGIC), ShiftRight(c, 1)) else ShiftRight(c, 1);
  }

  /** The inner loop: eight shifts of a table index. */
  method TableEntry(i: nat) returns (c: Word)
    ensures c == Steps(ToWord(i), 8)
  {
    c := ToWord(i);
    for j := 0 to 8
      invariant Steps(ToWord(i), 8) == Steps(c, 8 - j)
    {
      c := Shift(c);
    }
  }

  method BuildTable() returns (t: array<Word>)
    ensures fresh(t) && IsTable(t[..])
  {
    t := new Word[256];
    for i := 0 to 256
      invariant forall k :: 0 <= k < i ==> t[k] == Steps(ToWord(k), 8)
    {
      t[i] := TableEntry(i);
    }
  }

  /** The function crc32 together with the table it caches on itself. */
  class Checksum {
    var table: array?<Word>

    ghost predicate Valid()
      reads this, table
    {
      table != null ==> IsTable(table[..])
    }

    constructor ()
      ensures Valid() && table == null
    {
      table := null;
    }

    method Compute(buf: seq<Byte>) returns (result: Word)
      requires Valid()
      modifies this`table
      ensures Valid() && table != null
      ensures if old(table) != null then table == old(table) else fresh(table)
      ensures result == Crc(buf)
    {
      if table == null {
        table := BuildTable();
      }
      var t := table;
      var crc: Word := Ones(32);
      for i := 0 to |buf|
        invariant table == t && IsTable(t[..])
        invariant Crc(buf) == Complement(FeedBits(crc, DataBits(buf[i..])))
      {
        var index := Value(LowBits(Xor(crc, ToWord(buf[i] as int)), 8));
        TableStep(crc, buf[i], t[..]);
        FeedConcat(crc, BitsOfByte(buf[i]), DataBits(buf[i + 1..]));
        crc := Xor(ShiftRight(crc, 8), t[index]);
      }
      result := Xor(crc, Ones(32));
      assert result == Complement(crc);
    }
  }

  /** It is the standard's polynomial, reflected. */
  lemma MagicConstant()
    ensures ToWord(MAGIC) == Polynomial()
  {
    MagicBits(MAGIC);
  }

  lemma {:induction false} MagicBits(v: nat)
    requires v == MAGIC
    ensures ToWord(v) == Polynomial()
  {
    var p: seq<bool> := Polynomial();
    var t, f := true, false;
    var b0 := ByteBits(0x20, f, f, f, f, f, t, f, f);
    var b1 := ByteBits(0x83, t, t, f, f, f, f, f, t);
    var b2 := ByteBits(0xB8, f, f, f, t, t, t, f, t);
    var b3 := ByteBits(0xED, t, f, t, t, f, t, t, t);
    PolynomialBits();
    FourBytes(b0, b1, b2, b3);
    ToBitsOfValue(p);
  }

  lemma PolynomialBits()
    ensures Polynomial() ==
      [false, false, false, false, false, true, false, false]
      + ([true, true, false, false, false, false, false, true]
         + ([false, false, false, true, true, true, false, true] + [true, false, true, true, false, true, true, true]))
  {
  }

  lemma {:induction false} FourBytes(b0: seq<bool>, b1: seq<bool>, b2: seq<bool>, b3: seq<bool>)
    requires |b0| == |b1| == |b2| == |b3| == 8
    ensures Value(b0 + (b1 + (b2 + b3))) == Value(b0) + 0x100 * (Value(b1) + 0x100 * (Value(b2) + 0x100 * Value(b3)))
  {
    ValueConcatByte(b2, b3);
    ValueConcatByte(b1, b2 + b3);
    ValueConcatByte(b0, b1 + (b2 + b3));
  }

  lemma ByteBits(v: nat, b0: bool, b1: bool, b2: bool, b3: bool, b4: bool, b5: bool, b6: bool, b7: bool)
      returns (bits: seq<bool>)
    requires v == BitValue(b0) + 2 * (BitValue(b1) + 2 * (BitValue(b2) + 2 * (BitValue(b3)
      + 2 * (BitValue(b4) + 2 * (BitValue(b5) + 2 * (BitValue(b6) + 2 * BitValue(b7)))))))
    ensures bits == [b0, b1, b2, b3, b4, b5, b6, b7] && Value(bits) == v
  {
    var high := NibbleBits(b4, b5, b6, b7);
    var low := NibbleBits(b0, b1, b2, b3);
    bits := low + high;
    ValueConcat(low, high);
    assert Pow2(4) == 16;
  }

  lemma NibbleBits(b0: bool, b1: bool, b2: bool, b3: bool) returns (bits: seq<bool>)
    ensures bits == [b0, b1, b2, b3]
    ensures Value(bits) == BitValue(b0) + 2 * (BitValue(b1) + 2 * (BitValue(b2) + 2 * BitValue(b3)))
  {
    bits := PrependBit(b3, []);
    bits := PrependBit(b2, bits);
    bits := PrependBit(b1, bits);
    bits := PrependBit(b0, bits);
  }

  lemma PrependBit(b: bool, bits: seq<bool>) returns (longer: seq<bool>)
    ensures longer == [b] + bits && Value(longer) == BitValue(b) + 2 * Value(bits)
  {
    longer := [b] + bits;
    assert longer[1..] == bits;
  }

  function BitValue(b: bool): nat {
    if b then 1 else 0
  }

  // ---- The step is linear and injective ------------------------------------

  lemma StepLinear(x: Word, y: Word)
    ensures Step(Xor(x, y)) == Xor(Step(x), Step(y))
  {
  }

  lemma {:induction false} StepsLinear(x: Word, y: Word, n: nat)
    ensures Steps(Xor(x, y), n) == Xor(Steps(x, n), Steps(y, n))
    decreases n
  {
    if n > 0 {
      StepLinear(x, y);
      StepsLinear(Step(x), Step(y), n - 1);
    }
  }

  lemma AbsorbLinear(r: Word, s: Word, b: bool, c: bool)
    ensures Absorb(Xor(r, s), b != c) == Xor(Absorb(r, b), Absorb(s, c))
  {
    var r': Word, s': Word := r[0 := r[0] != b], s[0 := s[0] != c];
    StepLinear(r', s');
    assert Xor(r', s') == Xor(r, s)[0 := Xor(r, s)[0] != (b != c)];
  }

  lemma XorTail(d: seq<bool>, e: seq<bool>)
    requires |d| == |e| > 0
    ensures Xor(d, e) == [d[0] != e[0]] + Xor(d[1..], e[1..])
  {
  }

  lemma {:induction false} FeedLinear(r: Word, s: Word, d: seq<bool>, e: seq<bool>)
    requires |d| == |e|
    ensures FeedBits(Xor(r, s), Xor(d, e)) == Xor(FeedBits(r, d), FeedBits(s, e))
    decreases |d|
  {
    if d != [] {
      AbsorbLinear(r, s, d[0], e[0]);
      XorTail(d, e);
      FeedLinear(Absorb(r, d[0]), Absorb(s, e[0]), d[1..], e[1..]);
      assert Xor(d, e)[1..] == Xor(d[1..], e[1..]);
    }
  }

  lemma {:induction false} FeedConcat(r: Word, d: seq<bool>, e: seq<bool>)
    ensures FeedBits(r, d + e) == FeedBits(FeedBits(r, d), e)
    decreases |d|
  {
    if d == [] {
      assert d + e == e;
    } else {
      FeedConcat(Absorb(r, d[0]), d[1..], e);
      assert (d + e)[1..] == d[1..] + e;
    }
  }

  /** Data bits as a word: they come first, then zeros. */
  function Pad(d: seq<bool>): Word
    requires |d| <= 32
  {
    d + Zeros(32 - |d|)
  }

  lemma PadStep(rest: seq<bool>)
    requires |rest| < 32
    ensures Step(Pad([false] + rest)) == Pad(rest)
  {
    assert ShiftRight(Pad([false] + rest), 1) == Pad(rest);
  }

  lemma AbsorbAhead(r: Word, d: seq<bool>)
    requires 0 < |d| <= 32
    ensures Step(Xor(r, Pad(d))) == Xor(Absorb(r, d[0]), Pad(d[1..]))
  {
    var r': Word := r[0 := r[0] != d[0]];
    assert Xor(r', Pad([false] + d[1..])) == Xor(r, Pad(d));
    StepLinear(r', Pad([false] + d[1..]));
    PadStep(d[1..]);
  }

  /** Whole words of data can be xored into the register before it is shifted. */
  lemma {:induction false} FeedAhead(r: Word, d: seq<bool>)
    requires |d| <= 32
    ensures FeedBits(r, d) == Steps(Xor(r, Pad(d)), |d|)
    decreases |d|
  {
    if d == [] {
      assert Xor(r, Pad(d)) == r;
    } else {
      AbsorbAhead(r, d);
      FeedAhead(Absorb(r, d[0]), d[1..]);
    }
  }

  lemma {:induction false} ZeroBitsShiftOut(w: Word, n: nat)
    requires n <= 32 && w[..n] == Zeros(n)
    ensures Steps(w, n) == w[n..] + Zeros(n)
    decreases n
  {
    if n > 0 {
      assert !w[0] by { assert w[0] == w[..n][0]; }
      var w' := Step(w);
      assert w'[..n - 1] == Zeros(n - 1) by {
        assert forall i :: 0 <= i < n - 1 ==> w'[i] == w[..n][i + 1];
      }
      ZeroBitsShiftOut(w', n - 1);
    }
  }

  /** Eight steps: what shifts out selects a polynomial, what stays is shifted down. */
  lemma StepsSplit(x: Word)
    ensures Steps(x, 8) == Xor(ShiftRight(x, 8), Steps(LowBits(x, 8), 8))
  {
    var high: Word := Zeros(8) + x[8..];
    assert x == Xor(high, LowBits(x, 8));
    StepsLinear(high, LowBits(x, 8), 8);
    assert high[..8] == Zeros(8);
    ZeroBitsShiftOut(high, 8);
  }

  lemma LowBitsIndex(x: Word, k: nat)
    requires k <= 32
    ensures Value(LowBits(x, k)) < Pow2(k)
    ensures ToBits(Value(LowBits(x, k)), WORD_SIZE) == LowBits(x, k)
  {
    var low := x[..k];
    ValueConcat(low, Zeros(32 - k));
    ValueZeros(32 - k);
    ToBitsOfValue(low);
    ToBitsExtend(Value(low), k, 32 - k);
  }

  /** The table index denotes the low byte it was masked out of. */
  lemma LowByteIndex(x: Word)
    ensures Value(LowBits(x, 8)) < 256
    ensures ToWord(Value(LowBits(x, 8))) == LowBits(x, 8)
  {
    PowersOfTwo();
    LowBitsIndex(x, 8);
  }

  lemma ByteWord(b: Byte)
    ensures ToWord(b as int) == Pad(BitsOfByte(b))
  {
    PowersOfTwo();
    ToBitsExtend(b as int, BYTE_SIZE, 24);
  }

  /** One table lookup does the work of eight register steps. */
  lemma TableStep(crc: Word, b: Byte, table: seq<Word>)
    requires IsTable(table)
    ensures var index := Value(LowBits(Xor(crc, ToWord(b as int)), 8));
      index < 256 && Xor(ShiftRight(crc, 8), table[index]) == FeedBits(crc, BitsOfByte(b))
  {
    var x: Word := Xor(crc, ToWord(b as int));
    ByteWord(b);
    FeedAhead(crc, BitsOfByte(b));
    StepsSplit(x);
    assert ShiftRight(x, 8) == ShiftRight(crc, 8);
    LowByteIndex(x);
  }
}
