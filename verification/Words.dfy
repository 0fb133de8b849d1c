/** Bytes, 32-bit words as the bit vectors JavaScript's integer operators work on,
    and the integer fields that Node's Buffer writes. */
module Words {

  newtype Byte = n: int | 0 <= n < 256

  // ---- Bit vectors, least significant bit first ----------------------------

  const WORD_SIZE: nat := 32
  const HALF_SIZE: nat := 16

  type Word = w: seq<bool> | |w| == 32 witness Zeros(32)

  function Zeros(n: nat): (z: seq<bool>)
    ensures |z| == n && forall i :: 0 <= i < n ==> !z[i]
  {
    seq(n, _ => false)
  }

  function Ones(n: nat): (o: seq<bool>)
    ensures |o| == n && forall i :: 0 <= i < n ==> o[i]
  {
    seq(n, _ => true)
  }

  function Xor(x: seq<bool>, y: seq<bool>): (z: seq<bool>)
    requires |x| == |y|
    ensures |z| == |x| && forall i :: 0 <= i < |x| ==> z[i] == (x[i] != y[i])
  {
    seq(|x|, i requires 0 <= i < |x| => x[i] != y[i])
  }

  function Or(x: Word, y: Word): (z: Word)
    ensures forall i :: 0 <= i < 32 ==> z[i] == (x[i] || y[i])
  {
    seq(32, i requires 0 <= i < 32 => x[i] || y[i])
  }

  function Complement(x: seq<bool>): (z: seq<bool>)
    ensures |z| == |x| && forall i :: 0 <= i < |x| ==> z[i] == !x[i]
  {
    seq(|x|, i requires 0 <= i < |x| => !x[i])
  }

  /** JavaScript's x >>> k and x << k. */
  function ShiftRight(x: Word, k: nat): Word
    requires k <= 32
  {
    x[k..] + Zeros(k)
  }

  function ShiftLeft(x: Word, k: nat): Word
    requires k <= 32
  {
    Zeros(k) + x[..32 - k]
  }

  /** x & (2^k - 1) */
  function LowBits(x: Word, k: nat): Word
    requires k <= 32
  {
    x[..k] + Zeros(32 - k)
  }

  // ---- Bit vectors and the numbers they denote -----------------------------

  function Pow2(n: nat): (p: nat)
    ensures p > 0
  {
    if n == 0 then 1 else 2 * Pow2(n - 1)
  }

  /** The unsigned value; on a Word, what JavaScript's x >>> 0 yields. */
  function Value(bits: seq<bool>): nat {
    if bits == [] then 0 else (if bits[0] then 1 else 0) + 2 * Value(bits[1..])
  }

  function ToBits(v: nat, n: nat): (bits: seq<bool>)
    ensures |bits| == n
  {
    if n == 0 then [] else [v % 2 == 1] + ToBits(v / 2, n - 1)
  }

  /** A non-negative number below 2^32 as an operand of the integer operators. */
  function ToWord(v: nat): Word {
    ToBits(v, WORD_SIZE)
  }

  lemma {:induction false} ValueOfToBits(v: nat, n: nat)
    requires v < Pow2(n)
    ensures Value(ToBits(v, n)) == v
  {
    if n > 0 {
      ValueOfToBits(v / 2, n - 1);
    }
  }

  lemma {:induction false} ToBitsOfValue(bits: seq<bool>)
    ensures ToBits(Value(bits), |bits|) == bits
    ensures Value(bits) < Pow2(|bits|)
  {
    if bits != [] {
      ToBitsOfValue(bits[1..]);
    }
  }

  lemma {:induction false} ToBitsExtend(v: nat, n: nat, m: nat)
    requires v < Pow2(n)
    ensures ToBits(v, n + m) == ToBits(v, n) + Zeros(m)
  {
    if n > 0 {
      ToBitsExtend(v / 2, n - 1, m);
    } else if m > 0 {
      ToBitsExtend(v, 0, m - 1);
    }
  }

  lemma {:induction false} ValueConcat(x: seq<bool>, y: seq<bool>)
    ensures Value(x + y) == Value(x) + Pow2(|x|) * Value(y)
  {
    if x == [] {
      assert x + y == y;
    } else {
      ValueConcat(x[1..], y);
      assert (x + y)[1..] == x[1..] + y;
      assert Pow2(|x|) * Value(y) == 2 * (Pow2(|x| - 1) * Value(y));
    }
  }

  lemma ValueConcatByte(x: seq<bool>, y: seq<bool>)
    requires |x| == 8
    ensures Value(x + y) == Value(x) + 0x100 * Value(y)
  {
    PowersOfTwo();
    ValueConcat(x, y);
  }

  lemma {:induction false} ValueZeros(n: nat)
    ensures Value(Zeros(n)) == 0
  {
    if n > 0 {
      ValueZeros(n - 1);
      assert Zeros(n)[1..] == Zeros(n - 1);
    }
  }

  lemma {:induction false} ValueComplement(x: seq<bool>)
    ensures Value(Complement(x)) == Pow2(|x|) - 1 - Value(x)
  {
    if x != [] {
      ValueComplement(x[1..]);
      assert Complement(x)[1..] == Complement(x[1..]);
    }
  }

  lemma PowersOfTwo()
    ensures Pow2(8) == 0x100 && Pow2(16) == 0x1_0000 && Pow2(32) == 0x1_0000_0000
  {
    assert Pow2(8) == 0x100;
    assert Pow2(12) == 0x10 * Pow2(8);
    assert Pow2(16) == 0x10 * Pow2(12);
    assert Pow2(20) == 0x10 * Pow2(16);
    assert Pow2(24) == 0x10 * Pow2(20);
    assert Pow2(28) == 0x10 * Pow2(24);
    assert Pow2(32) == 0x10 * Pow2(28);
  }

  lemma JoinBits(h: seq<bool>, l: seq<bool>)
    requires |h| == |l| == 16
    ensures Or(ShiftLeft(h + Zeros(16), 16), l + Zeros(16)) == l + h
  {
  }

  /** ((hi << 16) | lo) >>> 0 joins two halves, although the intermediate result is signed. */
  lemma JoinHalves(hi: nat, lo: nat)
    requires hi < 0x1_0000 && lo < 0x1_0000
    ensures Value(Or(ShiftLeft(ToWord(hi), 16), ToWord(lo))) == hi * 0x1_0000 + lo
  {
    PowersOfTwo();
    ToBitsExtend(hi, HALF_SIZE, HALF_SIZE);
    ToBitsExtend(lo, HALF_SIZE, HALF_SIZE);
    var h, l := ToBits(hi, HALF_SIZE), ToBits(lo, HALF_SIZE);
    JoinBits(h, l);
    ValueConcat(l, h);
    ValueOfToBits(hi, HALF_SIZE);
    ValueOfToBits(lo, HALF_SIZE);
  }

  lemma LowComplement(h: seq<bool>, x: Word)
    requires |h| <= 32 && x == h + Zeros(32 - |h|)
    ensures LowBits(Complement(x), |h|) == Complement(h) + Zeros(32 - |h|)
  {
  }

  lemma ComplementLow(n: nat, k: nat)
    requires k <= WORD_SIZE && n < Pow2(k)
    ensures Value(LowBits(Complement(ToWord(n)), k)) == Pow2(k) - 1 - n
  {
    var h := ToBits(n, k);
    ToBitsExtend(n, k, WORD_SIZE - k);
    LowComplement(h, ToWord(n));
    ValueConcat(Complement(h), Zeros(32 - k));
    ValueZeros(32 - k);
    ValueComplement(h);
    ValueOfToBits(n, k);
  }

  /** ~n & 0xffff */
  lemma ComplementHalf(n: nat)
    requires n < 0x1_0000
    ensures Value(LowBits(Complement(ToWord(n)), 16)) == 0xFFFF - n
  {
    PowersOfTwo();
    ComplementLow(n, 16);
  }

  // ---- Integer fields ------------------------------------------------------

  /** Buffer.writeUInt16LE */
  function WriteU16LE(n: int): (bytes: seq<Byte>)
    requires 0 <= n < 0x1_0000
    ensures |bytes| == 2
  {
    [(n % 0x100) as Byte, (n / 0x100) as Byte]
  }

  function ReadU16LE(bytes: seq<Byte>): (n: int)
    requires |bytes| == 2
    ensures 0 <= n < 0x1_0000
  {
    bytes[0] as int + 0x100 * bytes[1] as int
  }

  /** Buffer.writeUInt32BE; Node throws a RangeError outside the stated range. */
  function WriteU32BE(n: int): (bytes: seq<Byte>)
    requires 0 <= n < 0x1_0000_0000
    ensures |bytes| == 4
  {
    [(n / 0x100_0000) as Byte, (n / 0x1_0000 % 0x100) as Byte, (n / 0x100 % 0x100) as Byte, (n % 0x100) as Byte]
  }

  function ReadU32BE(bytes: seq<Byte>): (n: int)
    requires |bytes| == 4
    ensures 0 <= n < 0x1_0000_0000
  {
    0x100_0000 * bytes[0] as int + 0x1_0000 * bytes[1] as int + 0x100 * bytes[2] as int + bytes[3] as int
  }

  lemma ReadWriteU16LE(n: int)
    requires 0 <= n < 0x1_0000
    ensures ReadU16LE(WriteU16LE(n)) == n
  {
  }

  lemma ReadWriteU32BE(n: int)
    requires 0 <= n < 0x1_0000_0000
    ensures ReadU32BE(WriteU32BE(n)) == n
  {
    assert n / 0x100 == n / 0x1_0000 * 0x100 + n / 0x100 % 0x100;
    assert n / 0x1_0000 == n / 0x100_0000 * 0x100 + n / 0x1_0000 % 0x100;
  }

  /** The low byte comes first. */
  lemma LowByteFirst(n: int)
    requires 0 <= n < 0x1_0000
    ensures WriteU16LE(n)[0] as int + 0x100 * WriteU16LE(n)[1] as int == n
  {
  }

  lemma UpperHalf(n: int)
    requires 0 <= n < 0x1_0000_0000
    ensures n / 0x1_0000 == 0x100 * (n / 0x100_0000) + n / 0x1_0000 % 0x100
  {
  }

  lemma LowerHalf(n: int)
    requires 0 <= n < 0x1_0000_0000
    ensures n % 0x1_0000 == 0x100 * (n / 0x100 % 0x100) + n % 0x100
  {
  }

  /** The high byte comes first: both halves of the number, high byte before low byte. */
  lemma HighByteFirst(n: int)
    requires 0 <= n < 0x1_0000_0000
    ensures 0x100 * WriteU32BE(n)[0] as int + WriteU32BE(n)[1] as int == n / 0x1_0000
    ensures 0x100 * WriteU32BE(n)[2] as int + WriteU32BE(n)[3] as int == n % 0x1_0000
  {
    UpperHalf(n);
    LowerHalf(n);
  }
}
