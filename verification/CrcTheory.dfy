/** What the checksum means: the remainder of a polynomial division over GF(2),
    and what that makes it detect. */
module CrcTheory {
  import opened Crc32
  import opened Sequences
  import opened Words

  // ---- Polynomials over GF(2), highest power first --------------------------

  /** The 33 coefficients of the generator. */
  function Generator(): (g: seq<bool>)
    ensures |g| == 33 && forall i :: 0 <= i < 33 ==> g[i] == InPolynomial(32 - i)
  {
    seq(33, i => InPolynomial(32 - i))
  }

  /** Adding the leading terms of p to bits. */
  function XorPrefix(bits: seq<bool>, p: seq<bool>): (r: seq<bool>)
    requires |p| <= |bits|
    ensures |r| == |bits|
    ensures forall i :: 0 <= i < |bits| ==> r[i] == (bits[i] != (i < |p| && p[i]))
  {
    seq(|bits|, i requires 0 <= i < |bits| => bits[i] != (i < |p| && p[i]))
  }

  /** What one step of the schoolbook division leaves. */
  function Reduce(bits: seq<bool>): (rest: seq<bool>)
    requires |bits| > 32
    ensures |rest| == |bits| - 1
  {
    (if bits[0] then XorPrefix(bits, Generator()) else bits)[1..]
  }

  /** Schoolbook division: cancel the leading term with the generator until 32 terms are left. */
  function Remainder(bits: seq<bool>): Word
    requires |bits| >= 32
    decreases |bits|
  {
    if |bits| == 32 then bits
    else Remainder(Reduce(bits))
  }

  /** The product of q and the generator. */
  function Multiple(q: seq<bool>): (m: seq<bool>)
    ensures |m| == |q| + 32
    decreases |q|
  {
    if q == [] then Zeros(32)
    else
      var shifted := [false] + Multiple(q[1..]);
      if q[0] then XorPrefix(shifted, Generator()) else shifted
  }

  /** What a quotient and a remainder stand for. */
  function Product(q: seq<bool>, r: Word): (sum: seq<bool>)
    ensures |sum| == |q| + 32
  {
    Xor(Multiple(q), Zeros(|q|) + r)
  }

  ghost predicate IsDivision(bits: seq<bool>, q: seq<bool>, r: Word) {
    bits == Product(q, r)
  }

  lemma XorTwice(s: seq<bool>, g: seq<bool>, z: seq<bool>)
    requires |g| <= |s| == |z|
    ensures XorPrefix(Xor(XorPrefix(s, g), z), g) == Xor(s, z)
  {
  }

  lemma ShiftedSum(m: seq<bool>, n: nat, r: Word)
    requires |m| == n + 32
    ensures Xor([false] + m, Zeros(n + 1) + r) == [false] + Xor(m, Zeros(n) + r)
  {
  }

  lemma ReduceProduct(q: seq<bool>, r: Word)
    requires q != []
    ensures Product(q, r)[0] == q[0]
    ensures Reduce(Product(q, r)) == Product(q[1..], r)
  {
    var n := |q| - 1;
    var shifted := [false] + Multiple(q[1..]);
    ShiftedSum(Multiple(q[1..]), n, r);
    assert Xor(shifted, Zeros(n + 1) + r)[1..] == Product(q[1..], r);
    if q[0] {
      assert Generator()[0];
      XorTwice(shifted, Generator(), Zeros(n + 1) + r);
    }
  }

  lemma ReduceInjective(a: seq<bool>, b: seq<bool>)
    requires |a| == |b| > 32 && a[0] == b[0] && Reduce(a) == Reduce(b)
    ensures a == b
  {
    forall i | 0 < i < |a| ensures a[i] == b[i] {
      assert Reduce(a)[i - 1] == Reduce(b)[i - 1];
    }
  }

  /** Division undoes one multiplication step. */
  lemma {:induction false} ReduceMultiple(bits: seq<bool>, q: seq<bool>, r: Word)
    requires |bits| == |q| + 32 && q != [] && q[0] == bits[0]
    ensures IsDivision(bits, q, r) <==> IsDivision(Reduce(bits), q[1..], r)
  {
    ReduceProduct(q, r);
    if Reduce(bits) == Product(q[1..], r) {
      ReduceInjective(bits, Product(q, r));
    }
  }

  lemma {:induction false} DivisionExists(bits: seq<bool>) returns (q: seq<bool>)
    requires |bits| >= 32
    ensures IsDivision(bits, q, Remainder(bits))
    decreases |bits|
  {
    if |bits| == 32 {
      q := [];
    } else {
      var q' := DivisionExists(Reduce(bits));
      q := [bits[0]] + q';
      ReduceMultiple(bits, q, Remainder(bits));
    }
  }

  lemma {:induction false} DivisionUnique(bits: seq<bool>, q: seq<bool>, r: Word)
    requires IsDivision(bits, q, r)
    ensures r == Remainder(bits)
    decreases |bits|
  {
    if q != [] {
      ReduceProduct(q, r);
      ReduceMultiple(bits, q, r);
      DivisionUnique(Reduce(bits), q[1..], r);
    } else {
      assert bits == r;
    }
  }

  // ---- The register computes the remainder ----------------------------------

  lemma ReduceRegister(r: Word, d: seq<bool>)
    requires d != []
    ensures Reduce(XorPrefix(d + Zeros(32), r)) == XorPrefix(d[1..] + Zeros(32), Absorb(r, d[0]))
  {
  }

  /** The shift register holds the leading terms of what is left to divide. */
  lemma {:induction false} RegisterDivides(r: Word, d: seq<bool>)
    ensures FeedBits(r, d) == Remainder(XorPrefix(d + Zeros(32), r))
    decreases |d|
  {
    if d == [] {
      assert XorPrefix(d + Zeros(32), r) == r;
    } else {
      ReduceRegister(r, d);
      RegisterDivides(Absorb(r, d[0]), d[1..]);
    }
  }

  /** Section 3.4 of RFC 2083: the message times x^32, its first 32 terms inverted,
      divided by the generator; the remainder inverted. */
  lemma CrcIsRemainder(data: seq<Byte>)
    ensures Crc(data) == Complement(Remainder(XorPrefix(DataBits(data) + Zeros(32), Ones(32))))
  {
    RegisterDivides(Ones(32), DataBits(data));
  }

  // ---- Error detection -------------------------------------------------------

  lemma StepInjective(x: Word, y: Word)
    requires Step(x) == Step(y)
    ensures x == y
  {
    assert Step(x)[31] == x[0] && Step(y)[31] == y[0];
    assert ShiftRight(x, 1) == ShiftRight(y, 1) by {
      forall i | 0 <= i < 32 ensures ShiftRight(x, 1)[i] == ShiftRight(y, 1)[i] {
        assert Step(x)[i] == Step(y)[i];
      }
    }
    assert x[1..] == ShiftRight(x, 1)[..31] && y[1..] == ShiftRight(y, 1)[..31];
    assert x == [x[0]] + x[1..] && y == [y[0]] + y[1..];
  }

  lemma AbsorbInjective(r: Word, s: Word, bit: bool)
    requires Absorb(r, bit) == Absorb(s, bit)
    ensures r == s
  {
    var r': Word, s': Word := r[0 := r[0] != bit], s[0 := s[0] != bit];
    StepInjective(r', s');
    assert r == r'[0 := r'[0] != bit] && s == s'[0 := s'[0] != bit];
  }

  lemma {:induction false} FeedInjective(r: Word, s: Word, d: seq<bool>)
    requires FeedBits(r, d) == FeedBits(s, d)
    ensures r == s
    decreases |d|
  {
    if d != [] {
      FeedInjective(Absorb(r, d[0]), Absorb(s, d[0]), d[1..]);
      AbsorbInjective(r, s, d[0]);
    }
  }

  /** If no bit is fed back, the register was shifted, and its low bit was the data bit. */
  lemma AbsorbUndone(r: Word, bit: bool)
    requires !Absorb(r, bit)[31]
    ensures r == [bit] + Absorb(r, bit)[..31]
  {
    var r': Word := r[0 := r[0] != bit];
    assert !r'[0];
    assert Absorb(r, bit) == r'[1..] + Zeros(1);
  }

  /** Only the bits already in the register can cancel 32 bits of data. */
  lemma {:induction false} FeedToZero(r: Word, d: seq<bool>)
    requires |d| <= 32 && FeedBits(r, d) == Zeros(32)
    ensures r == Pad(d)
    decreases |d|
  {
    if d != [] {
      FeedToZero(Absorb(r, d[0]), d[1..]);
      AbsorbUndone(r, d[0]);
      assert [d[0]] + Pad(d[1..])[..31] == Pad(d);
    }
  }

  /** Two bursts of at most 32 bits that leave the register in the same state are the same. */
  lemma BurstFixesRegister(r: Word, d: seq<bool>, e: seq<bool>)
    requires |d| == |e| <= 32 && FeedBits(r, d) == FeedBits(r, e)
    ensures d == e
  {
    var difference := Xor(d, e);
    FeedLinear(r, r, d, e);
    assert Xor(r, r) == Zeros(32) == Xor(FeedBits(r, d), FeedBits(r, e));
    FeedToZero(Zeros(32), difference);
    assert difference == Pad(difference)[..|d|] == Zeros(32)[..|d|];
    assert forall i :: 0 <= i < |d| ==> difference[i] == (d[i] != e[i]);
  }

  lemma BitsOfByteInjective(a: Byte, b: Byte)
    requires BitsOfByte(a) == BitsOfByte(b)
    ensures a == b
  {
    PowersOfTwo();
    ValueOfToBits(a as int, BYTE_SIZE);
    ValueOfToBits(b as int, BYTE_SIZE);
  }

  lemma {:induction false} DataBitsInjective(a: seq<Byte>, b: seq<Byte>)
    requires DataBits(a) == DataBits(b)
    ensures a == b
  {
    assert |DataBits(a)| == 8 * |a| && |DataBits(b)| == 8 * |b|;
    if a != [] {
      assert BitsOfByte(a[0]) == DataBits(a)[..8] && BitsOfByte(b[0]) == DataBits(b)[..8];
      BitsOfByteInjective(a[0], b[0]);
      assert DataBits(a[1..]) == DataBits(a)[8..] && DataBits(b[1..]) == DataBits(b)[8..];
      DataBitsInjective(a[1..], b[1..]);
    }
  }

  lemma BurstBetween(r: Word, p: seq<bool>, d: seq<bool>, e: seq<bool>, s: seq<bool>)
    requires |d| == |e| <= 32 && FeedBits(r, p + d + s) == FeedBits(r, p + e + s)
    ensures d == e
  {
    var r' := FeedBits(r, p);
    FeedConcat(r, p + d, s);
    FeedConcat(r, p, d);
    FeedConcat(r, p + e, s);
    FeedConcat(r, p, e);
    FeedInjective(FeedBits(r', d), FeedBits(r', e), s);
    BurstFixesRegister(r', d, e);
  }

  /** Every error burst of at most 32 bits, at any bit position, changes the checksum. */
  lemma {:induction false} BurstDetected(a: seq<Byte>, b: seq<Byte>, from: nat, to: nat)
    requires |a| == |b| && a != b
    requires from <= to <= 8 * |a| && to - from <= 32
    requires DataBits(a)[..from] == DataBits(b)[..from]
    requires DataBits(a)[to..] == DataBits(b)[to..]
    ensures Crc(a) != Crc(b)
  {
    var p, d, s := DataBits(a)[..from], DataBits(a)[from..to], DataBits(a)[to..];
    var e := DataBits(b)[from..to];
    assert DataBits(a) == p + d + s && DataBits(b) == p + e + s;
    if Crc(a) == Crc(b) {
      assert FeedBits(Ones(32), DataBits(a)) == Complement(Crc(a));
      assert FeedBits(Ones(32), DataBits(b)) == Complement(Crc(b));
      BurstBetween(Ones(32), p, d, e, s);
      DataBitsInjective(a, b);
    }
  }

  lemma {:induction false} DataBitsConcat(a: seq<Byte>, b: seq<Byte>)
    ensures DataBits(a + b) == DataBits(a) + DataBits(b)
  {
    if a == [] {
      assert a + b == b;
    } else {
      DataBitsConcat(a[1..], b);
      assert (a + b)[0] == a[0] && (a + b)[1..] == a[1..] + b;
      Regroup(BitsOfByte(a[0]), DataBits(a[1..]), DataBits(b));
    }
  }

  /** In particular, replacing up to four neighbouring bytes does. */
  lemma BytesDetected(prefix: seq<Byte>, x: seq<Byte>, y: seq<Byte>, suffix: seq<Byte>)
    requires |x| == |y| <= 4 && x != y
    ensures Crc(prefix + x + suffix) != Crc(prefix + y + suffix)
  {
    var a, b := prefix + x + suffix, prefix + y + suffix;
    DataBitsConcat(prefix + x, suffix);
    DataBitsConcat(prefix + y, suffix);
    DataBitsConcat(prefix, x);
    DataBitsConcat(prefix, y);
    assert x == a[|prefix|..|prefix + x|] && y == b[|prefix|..|prefix + y|];
    BurstDetected(a, b, 8 * |prefix|, 8 * |prefix + x|);
  }
}
