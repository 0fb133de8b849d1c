/** The stored-block zlib stream of the PNG writer, and a decoder written from
    RFC 1950 and RFC 1951 that undoes it. */
module Zlib {
  import opened Sequences
  import opened Words
  import opened Wrappers

  // ---- Adler-32 --------------------------------------------------------------

  const ADLER_BASE: nat := 65521

  function ByteSum(data: seq<Byte>): nat {
    if data == [] then 0 else data[0] as int + ByteSum(data[1..])
  }

  /** The sum of (n - i) * data[i] over all positions i. */
  function WeightedSum(data: seq<Byte>): nat {
    if data == [] then 0 else |data| * data[0] as int + WeightedSum(data[1..])
  }

  /** The two sums in closed form, as section 2.2 of RFC 1950 defines them. */
  function AdlerLow(data: seq<Byte>): nat {
    (1 + ByteSum(data)) % ADLER_BASE
  }

  function AdlerHigh(data: seq<Byte>): nat {
    (|data| + WeightedSum(data)) % ADLER_BASE
  }

  function Adler(data: seq<Byte>): (checksum: nat)
    ensures checksum < 0x1_0000_0000
  {
    AdlerHigh(data) * 0x1_0000 + AdlerLow(data)
  }

  lemma {:induction false} SumsAppend(data: seq<Byte>, d: Byte)
    ensures ByteSum(data + [d]) == ByteSum(data) + d as int
    ensures WeightedSum(data + [d]) == WeightedSum(data) + ByteSum(data) + d as int
  {
    if data == [] {
      assert data + [d] == [d];
    } else {
      SumsAppend(data[1..], d);
      assert (data + [d])[1..] == data[1..] + [d];
      assert |data + [d]| * data[0] as int == |data| * data[0] as int + data[0] as int;
    }
  }

  /** For two bytes the weights are 2 and 1. */
  lemma SumsOfTwo(c: Byte, d: Byte)
    ensures ByteSum([]) == 0 && WeightedSum([]) == 0
    ensures ByteSum([c, d]) == c as int + d as int
    ensures WeightedSum([c, d]) == 2 * c as int + d as int
  {
    SumsAppend([c], d);
    SumsAppend([], c);
    assert [] + [c] == [c] && [c] + [d] == [c, d];
  }

  lemma ModAbsorbs(x: nat, y: nat)
    ensures (x % ADLER_BASE + y) % ADLER_BASE == (x + y) % ADLER_BASE
  {
  }

  /** One turn of the loop. */
  lemma AdlerAppend(data: seq<Byte>, d: Byte)
    ensures AdlerLow(data + [d]) == (AdlerLow(data) + d as int) % ADLER_BASE
    ensures AdlerHigh(data + [d]) == (AdlerHigh(data) + AdlerLow(data + [d])) % ADLER_BASE
  {
    SumsAppend(data, d);
    ModAbsorbs(1 + ByteSum(data), d as int);
    ModAbsorbs(|data| + WeightedSum(data), AdlerLow(data + [d]));
    ModAbsorbs(1 + ByteSum(data + [d]), |data| + WeightedSum(data));
  }

  /** The sums of the next prefix. */
  lemma AdlerNext(data: seq<Byte>, i: nat)
    requires i < |data|
    ensures AdlerLow(data[..i + 1]) == (AdlerLow(data[..i]) + data[i] as int) % ADLER_BASE
    ensures AdlerHigh(data[..i + 1]) == (AdlerHigh(data[..i]) + AdlerLow(data[..i + 1])) % ADLER_BASE
  {
    AdlerAppend(data[..i], data[i]);
    assert data[..i + 1] == data[..i] + [data[i]];
  }

  /** The halves of a checksum. */
  lemma AdlerHalves(data: seq<Byte>)
    ensures Adler(data) / 0x1_0000 == (|data| + WeightedSum(data)) % 65521
    ensures Adler(data) % 0x1_0000 == (1 + ByteSum(data)) % 65521
  {
  }

  method Adler32(data: seq<Byte>) returns (result: Word)
    ensures Value(result) == Adler(data)
    ensures Value(result) / 0x1_0000 == (|data| + WeightedSum(data)) % 65521
    ensures Value(result) % 0x1_0000 == (1 + ByteSum(data)) % 65521
  {
    var a, b := 1, 0;
    for i := 0 to |data|
      invariant a == AdlerLow(data[..i]) && b == AdlerHigh(data[..i])
    {
      AdlerNext(data, i);
      a := (a + data[i] as int) % ADLER_BASE;
      b := (b + a) % ADLER_BASE;
    }
    assert data[..|data|] == data;
    JoinHalves(b, a);
    AdlerHalves(data);
    result := Or(ShiftLeft(ToWord(b), 16), ToWord(a));
  }

  // ---- The encoder -------------------------------------------------------------

  const BLOCK: nat := 65535

  function BlockHeader(last: bool, length: nat): seq<Byte>
    requires length <= BLOCK
  {
    [if last then 1 else 0] + WriteU16LE(length) + WriteU16LE(BLOCK - length)
  }

  function StoredBlocks(input: seq<Byte>): seq<Byte>
    decreases |input|
  {
    if input == [] then []
    else if |input| <= BLOCK then BlockHeader(true, |input|) + input
    else BlockHeader(false, BLOCK) + input[..BLOCK] + StoredBlocks(input[BLOCK..])
  }

  function Compress(input: seq<Byte>): seq<Byte> {
    [0x78, 0x01] + StoredBlocks(input) + WriteU32BE(Adler(input))
  }

  method WriteHeader(last: bool, length: nat) returns (bytes: seq<Byte>)
    requires length <= 65535
    ensures bytes == BlockHeader(last, length) && |bytes| == 5
    ensures bytes[0] == if last then 1 else 0
    ensures bytes[1] as int + 0x100 * bytes[2] as int == length
    ensures bytes[3] as int + 0x100 * bytes[4] as int == 65535 - length
  {
    var header := new Byte[5];
    header[0] := if last then 1 else 0;
    var len := WriteU16LE(length);
    header[1], header[2] := len[0], len[1];
    ComplementHalf(length);
    var nlen := WriteU16LE(Value(LowBits(Complement(ToWord(length)), 16)));
    header[3], header[4] := nlen[0], nlen[1];
    bytes := header[..];
    LowByteFirst(length);
    LowByteFirst(BLOCK - length);
  }

  /** What is left to write from position i on. */
  ghost function Left(input: seq<Byte>, i: nat): seq<Byte> {
    if i <= |input| then input[i..] else []
  }

  /** One turn of the block loop. */
  method WriteBlock(input: seq<Byte>, i: nat) returns (block: seq<Byte>)
    requires i < |input|
    ensures block + StoredBlocks(Left(input, i + BLOCK)) == StoredBlocks(Left(input, i))
  {
    var slice := input[i..if i + BLOCK <= |input| then i + BLOCK else |input|];
    var last := i + BLOCK >= |input|;
    var header := WriteHeader(last, |slice|);
    block := header + slice;
    BlockStep(input[i..]);
    if last {
      assert slice == input[i..] && Left(input, i + BLOCK) == [];
    } else {
      assert slice == input[i..][..BLOCK] && input[i..][BLOCK..] == input[i + BLOCK..];
    }
  }

  lemma BlockStep(left: seq<Byte>)
    requires left != []
    ensures |left| <= BLOCK ==> BlockHeader(true, |left|) + left + StoredBlocks([]) == StoredBlocks(left)
    ensures |left| > BLOCK ==>
      BlockHeader(false, BLOCK) + left[..BLOCK] + StoredBlocks(left[BLOCK..]) == StoredBlocks(left)
  {
  }

  /** Header, blocks and checksum in one buffer. */
  method Assemble(raw: seq<Byte>, input: seq<Byte>) returns (zlib: seq<Byte>)
    ensures zlib == [0x78, 0x01] + raw + WriteU32BE(Adler(input))
  {
    var buffer := new Byte[6 + |raw|];
    buffer[0], buffer[1] := 0x78, 0x01;
    forall k | 0 <= k < |raw| {
      buffer[2 + k] := raw[k];
    }
    var checksum := Adler32(input);
    var ad := WriteU32BE(Value(checksum));
    forall k | 0 <= k < 4 {
      buffer[buffer.Length - 4 + k] := ad[k];
    }
    zlib := buffer[..];
    assert zlib == [0x78, 0x01] + raw + ad;
  }

  method DeflateRaw(input: seq<Byte>) returns (zlib: seq<Byte>)
    ensures zlib == Compress(input)
  {
    var raw: seq<Byte> := [];
    var i := 0;
    while i < |input|
      invariant 0 <= i
      invariant raw + StoredBlocks(Left(input, i)) == StoredBlocks(input)
    {
      var block := WriteBlock(input, i);
      Regroup(raw, block, StoredBlocks(Left(input, i + BLOCK)));
      raw := raw + block;
      i := i + BLOCK;
    }
    assert raw + [] == raw;
    zlib := Assemble(raw, input);
  }

  // ---- The decoder ---------------------------------------------------------------

  datatype ZlibError = Truncated | BadHeader | BadBlockLength | Unsupported | BadChecksum | TrailingBytes

  datatype Inflated = Inflated(data: seq<Byte>, rest: seq<Byte>)

  datatype Block = Block(final: bool, data: seq<Byte>, rest: seq<Byte>)

  /** Sections 3.2.3 and 3.2.4 of RFC 1951; only stored blocks are understood. */
  function ReadBlock(s: seq<Byte>): (r: Result<Block, ZlibError>)
    ensures r.Ok? ==> |r.value.rest| < |s|
  {
    if |s| < 1 then Err(Truncated)
    else if s[0] / 2 % 4 != 0 then Err(Unsupported)
    else if |s| < 5 then Err(Truncated)
    else
      var len, nlen := ReadU16LE(s[1..3]), ReadU16LE(s[3..5]);
      if len + nlen != 0xFFFF then Err(BadBlockLength)
      else if |s| < 5 + len then Err(Truncated)
      else Ok(Block(s[0] % 2 == 1, s[5..5 + len], s[5 + len..]))
  }

  function Inflate(s: seq<Byte>): Result<Inflated, ZlibError>
    decreases |s|
  {
    var block :- ReadBlock(s);
    if block.final then Ok(Inflated(block.data, block.rest))
    else
      var more :- Inflate(block.rest);
      Ok(Inflated(block.data + more.data, more.rest))
  }

  /** Section 2.2 of RFC 1950, without a preset dictionary. */
  function Decompress(s: seq<Byte>): Result<seq<Byte>, ZlibError> {
    if |s| < 2 then Err(Truncated)
    else if !ValidHeader(s[0] as int, s[1] as int) then Err(BadHeader)
    else
      var inflated :- Inflate(s[2..]);
      if |inflated.rest| < 4 then Err(Truncated)
      else if |inflated.rest| > 4 then Err(TrailingBytes)
      else if ReadU32BE(inflated.rest) != Adler(inflated.data) then Err(BadChecksum)
      else Ok(inflated.data)
  }

  /** Method deflate, a window of at most 32K, the check bits, no preset dictionary. */
  predicate ValidHeader(cmf: nat, flg: nat) {
    cmf % 16 == 8 && cmf / 16 <= 7 && (cmf * 256 + flg) % 31 == 0 && flg / 32 % 2 == 0
  }

  // ---- Round trip ------------------------------------------------------------------

  lemma ReadStoredBlock(last: bool, slice: seq<Byte>, rest: seq<Byte>)
    requires |slice| <= BLOCK
    ensures ReadBlock(BlockHeader(last, |slice|) + slice + rest) == Ok(Block(last, slice, rest))
  {
  }

  lemma InflateMore(slice: seq<Byte>, s: seq<Byte>, data: seq<Byte>, rest: seq<Byte>)
    requires |slice| == BLOCK && Inflate(s) == Ok(Inflated(data, rest))
    ensures Inflate(BlockHeader(false, BLOCK) + slice + s) == Ok(Inflated(slice + data, rest))
  {
    ReadStoredBlock(false, slice, s);
  }

  lemma InflateLast(slice: seq<Byte>, rest: seq<Byte>)
    requires |slice| <= BLOCK
    ensures Inflate(BlockHeader(true, |slice|) + slice + rest) == Ok(Inflated(slice, rest))
  {
    ReadStoredBlock(true, slice, rest);
  }

  lemma {:induction false} InflateStored(input: seq<Byte>, rest: seq<Byte>)
    requires input != []
    ensures Inflate(StoredBlocks(input) + rest) == Ok(Inflated(input, rest))
    decreases |input|
  {
    if |input| <= BLOCK {
      InflateLast(input, rest);
    } else {
      var slice, tail := input[..BLOCK], input[BLOCK..];
      InflateStored(tail, rest);
      InflateMore(slice, StoredBlocks(tail) + rest, tail, rest);
      Regroup(BlockHeader(false, BLOCK) + slice, StoredBlocks(tail), rest);
      assert slice + tail == input;
    }
  }

  /** The zlib frame around a body the inflater understands. */
  lemma DecompressFrame(body: seq<Byte>, data: seq<Byte>, checksum: seq<Byte>)
    requires |checksum| == 4 && Inflate(body + checksum) == Ok(Inflated(data, checksum))
    ensures Decompress([0x78, 0x01] + body + checksum) ==
      if ReadU32BE(checksum) == Adler(data) then Ok(data) else Err(BadChecksum)
  {
    var s: seq<Byte> := [0x78, 0x01] + body + checksum;
    assert s[0] == 0x78 && s[1] == 0x01 && s[2..] == body + checksum;
    assert ValidHeader(0x78, 0x01);
  }

  /** Decompression undoes the encoder on every input but the empty one, for which
      the encoder writes no block at all. */
  lemma {:induction false} DecompressCompress(input: seq<Byte>)
    ensures Decompress(Compress(input)) == if input == [] then Err(Truncated) else Ok(input)
  {
    var ad := WriteU32BE(Adler(input));
    if input == [] {
      assert Compress(input)[2..] == ad;
      assert Adler(input) == 1;
    } else {
      InflateStored(input, ad);
      ReadWriteU32BE(Adler(input));
      DecompressFrame(StoredBlocks(input), input, ad);
    }
  }

  function CompressedLength(n: nat): nat {
    n + 5 * ((n + BLOCK - 1) / BLOCK) + 6
  }

  lemma CompressLength(input: seq<Byte>)
    ensures |Compress(input)| == CompressedLength(|input|) == |input| + 5 * ((|input| + 65534) / 65535) + 6
  {
    BlocksLength(input);
  }

  lemma {:induction false} BlocksLength(input: seq<Byte>)
    ensures |StoredBlocks(input)| == |input| + 5 * ((|input| + BLOCK - 1) / BLOCK)
    decreases |input|
  {
    if |input| > BLOCK {
      BlocksLength(input[BLOCK..]);
      assert (|input| + BLOCK - 1) / BLOCK == (|input| - BLOCK + BLOCK - 1) / BLOCK + 1;
    }
  }

  // ---- The bytes of a stream ---------------------------------------------------------

  /** A stream starts with 0x78 0x01 and ends with the two sums of its input, each high byte first. */
  lemma StreamEnds(input: seq<Byte>)
    ensures var s := Compress(input);
      var n := |s|;
      && n >= 6 && s[0] == 0x78 && s[1] == 0x01
      && 0x100 * s[n - 4] as int + s[n - 3] as int == (|input| + WeightedSum(input)) % 65521
      && 0x100 * s[n - 2] as int + s[n - 1] as int == (1 + ByteSum(input)) % 65521
  {
    AdlerHalves(input);
    HighByteFirst(Adler(input));
    var body: seq<Byte> := [0x78, 0x01] + StoredBlocks(input);
    assert Compress(input) == body + WriteU32BE(Adler(input));
  }

  /** The stream of two bytes, in full. */
  lemma StreamOfOneTwo()
    ensures Compress([1, 2]) == [0x78, 0x01, 0x01, 0x02, 0x00, 0xFD, 0xFF, 1, 2, 0x00, 0x06, 0x00, 0x04]
  {
    var input: seq<Byte> := [1, 2];
    SumsOfTwo(1, 2);
    assert Adler(input) == 0x0006_0004;
    assert WriteU32BE(0x0006_0004) == [0x00, 0x06, 0x00, 0x04];
    assert StoredBlocks(input) == BlockHeader(true, 2) + input;
    assert BlockHeader(true, 2) == [0x01, 0x02, 0x00, 0xFD, 0xFF];
  }
}
